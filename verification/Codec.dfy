/** The byte encodings that transactions are signed and hashed over and that headers are hashed over. */
module Codec {
  import opened Basics
  import opened Chain
  import opened Targets

  const TWO32: nat := 0x1_0000_0000

  // ----- numbers -----

  /** The n low octets of a number, least significant first. */
  function Little(v: nat, n: nat): (b: Bytes)
    ensures |b| == n
    decreases n
  {
    if n == 0 then [] else [Rest(v, 256)] + Little(Quot(v, 256), n - 1)
  }

  function FromLittle(b: Bytes): nat {
    if |b| == 0 then 0 else b[0] + 256 * FromLittle(b[1..])
  }

  lemma {:induction false} LittleRoundTrip(v: nat, n: nat)
    requires v < Power(256, n)
    ensures FromLittle(Little(v, n)) == v
    decreases n
  {
    hide Quot, Rest;
    if n == 0 {
    } else {
      var q := Quot(v, 256);
      Euclid(v, 256);
      LittleRoundTrip(q, n - 1);
      assert Little(v, n)[1..] == Little(q, n - 1);
    }
  }

  lemma LowOctet(o: nat, q: nat)
    requires o < 256
    ensures Rest(o + 256 * q, 256) == o && Quot(o + 256 * q, 256) == q
  {
  }

  lemma {:induction false} FromLittleRoundTrip(b: Bytes)
    ensures FromLittle(b) < Power(256, |b|) && Little(FromLittle(b), |b|) == b
  {
    hide Rest, Quot;
    if |b| == 0 {
    } else {
      FromLittleRoundTrip(b[1..]);
      LowOctet(b[0], FromLittle(b[1..]));
      assert b == [b[0]] + b[1..];
    }
  }

  lemma Widths()
    ensures Power(256, 4) == TWO32 && Power(256, 8) == TWO64
  {
    assert Power(256, 1) == 256 && Power(256, 2) == 0x1_0000;
    PowerSquare(256, 2);
    PowerSquare(256, 4);
  }

  function Unsigned(v: i64): u64 {
    if v < 0 then v + TWO64 else v
  }

  function Signed(v: u64): i64 {
    if v < TWO63 then v else v - TWO64
  }

  // ----- fields -----

  function U64Bytes(v: u64): (b: Bytes)
    ensures |b| == 8
  {
    Little(v, 8)
  }

  /** Four octets of length and the data. The length is cut to 32 bits. */
  function Prefixed(data: Bytes): (b: Bytes)
    ensures |b| == 4 + |data|
  {
    Little(Rest(|data|, TWO32), 4) + data
  }

  /** Strings hold octets: no character is above 255. */
  ghost predicate OctetString(s: string) {
    forall i :: 0 <= i < |s| ==> s[i] as int < 256
  }

  function StringOctets(s: string): (b: Bytes)
    requires OctetString(s)
    ensures |b| == |s|
    ensures forall i :: 0 <= i < |s| ==> b[i] == s[i] as int
  {
    seq(|s|, i requires 0 <= i < |s| => s[i] as int)
  }

  function OctetsString(b: Bytes): (s: string)
    ensures |s| == |b| && OctetString(s) && StringOctets(s) == b
  {
    seq(|b|, i requires 0 <= i < |b| => b[i] as char)
  }

  /** The thirty-two octets of a digest, most significant first. */
  function HashOctets(h: Hash): (b: Bytes)
    ensures |b| == 32
  {
    DigitsInRange(h, 256, 32);
    DigitsOf(h, 256, 32)
  }

  lemma HashRoundTrip(h: Hash)
    requires h <= MAX_TARGET
    ensures Value(HashOctets(h), 256) == h
  {
    Power256Is();
    ValueOfDigits(h, 256, 32);
  }

  lemma {:induction false} DigitsOfValue(b: Bytes)
    ensures DigitsOf(Value(b, 256), 256, |b|) == b
  {
    hide Rest, Quot;
    if |b| == 0 {
    } else {
      var init := b[..|b| - 1];
      DigitsOfValue(init);
      LowOctet(b[|b| - 1], Value(init, 256));
      assert b == init + [b[|b| - 1]];
    }
  }

  lemma OctetsOfHash(b: Bytes)
    requires |b| == 32
    ensures Value(b, 256) <= MAX_TARGET && HashOctets(Value(b, 256)) == b
  {
    Power256Is();
    ValueBound(b, 256);
    DigitsOfValue(b);
  }

  /** One encoded field: a 64-bit number or a length-prefixed string of octets. */
  datatype Field = Number(n: u64) | Octets(b: Bytes)

  function FieldBytes(f: Field): Bytes {
    if f.Number? then U64Bytes(f.n) else Prefixed(f.b)
  }

  function Write(fs: seq<Field>): Bytes {
    if |fs| == 0 then [] else FieldBytes(fs[0]) + Write(fs[1..])
  }

  lemma {:induction false} WriteConcat(fs: seq<Field>, gs: seq<Field>)
    ensures Write(fs + gs) == Write(fs) + Write(gs)
  {
    if |fs| == 0 {
      assert fs + gs == gs;
    } else {
      assert (fs + gs)[1..] == fs[1..] + gs;
      WriteConcat(fs[1..], gs);
    }
  }

  lemma WriteOne(f: Field)
    ensures Write([f]) == FieldBytes(f)
  {
    assert Write([f][1..]) == [];
  }

  // ----- the writers -----

  class Buffer {
    var data: Bytes

    constructor ()
      ensures data == []
    {
      data := [];
    }

    method WriteU64(v: u64)
      modifies this
      ensures data == old(data) + FieldBytes(Number(v))
    {
      data := data + Little(v, 8);
    }

    method WriteI64(v: i64)
      modifies this
      ensures data == old(data) + FieldBytes(Number(Unsigned(v)))
    {
      data := data + Little(Unsigned(v), 8);
    }

    method WriteString(s: string)
      requires OctetString(s)
      modifies this
      ensures data == old(data) + FieldBytes(Octets(StringOctets(s)))
    {
      data := data + Little(Rest(|s|, TWO32), 4);
      data := data + StringOctets(s);
    }

    method WriteBytes(b: Bytes)
      modifies this
      ensures data == old(data) + FieldBytes(Octets(b))
    {
      data := data + Little(Rest(|b|, TWO32), 4);
      data := data + b;
    }
  }

  // ----- transactions -----

  /** What the transaction signature covers. */
  function SigningFields(t: Tx): (fs: seq<Field>)
    requires OctetString(t.from) && OctetString(t.to)
    ensures |fs| == 7
  {
    [Octets(StringOctets(t.from)), Octets(StringOctets(t.to)), Number(t.amount), Number(t.fee),
     Number(t.nonce), Number(Unsigned(t.time)), Octets(Written(t.pubKey))]
  }

  /** What the transaction id covers. */
  function FullFields(t: Tx): (fs: seq<Field>)
    requires OctetString(t.from) && OctetString(t.to)
    ensures |fs| == 8
  {
    SigningFields(t) + [Octets(Written(t.sig))]
  }

  method EncodeTx(t: Tx, signing: bool) returns (out: Bytes)
    requires OctetString(t.from) && OctetString(t.to)
    ensures out == Write(if signing then SigningFields(t) else FullFields(t))
  {
    hide FieldBytes;
    var buf := new Buffer();
    buf.WriteString(t.from);
    buf.WriteString(t.to);
    buf.WriteU64(t.amount);
    buf.WriteU64(t.fee);
    buf.WriteU64(t.nonce);
    buf.WriteI64(t.time);
    buf.WriteBytes(Written(t.pubKey));
    SevenFields(SigningFields(t));
    if !signing {
      WriteConcat(SigningFields(t), [Octets(Written(t.sig))]);
      WriteOne(Octets(Written(t.sig)));
      buf.WriteBytes(Written(t.sig));
    }
    out := buf.data;
  }

  lemma SevenFields(fs: seq<Field>)
    requires |fs| == 7
    ensures Write(fs) == [] + FieldBytes(fs[0]) + FieldBytes(fs[1]) + FieldBytes(fs[2]) + FieldBytes(fs[3])
                         + FieldBytes(fs[4]) + FieldBytes(fs[5]) + FieldBytes(fs[6])
  {
    hide FieldBytes, Write;
    assert Write(fs[..0]) == [] by { WriteNothing(fs); }
    WritePrefix(fs, 0);
    WritePrefix(fs, 1);
    WritePrefix(fs, 2);
    WritePrefix(fs, 3);
    WritePrefix(fs, 4);
    WritePrefix(fs, 5);
    WritePrefix(fs, 6);
    assert fs[..7] == fs;
  }

  lemma WriteNothing(fs: seq<Field>)
    ensures Write(fs[..0]) == []
  {
  }

  /** Writing one more field appends it. */
  lemma WritePrefix(fs: seq<Field>, i: nat)
    requires i < |fs|
    ensures Write(fs[..i + 1]) == Write(fs[..i]) + FieldBytes(fs[i])
  {
    hide FieldBytes, Write;
    WriteConcat(fs[..i], [fs[i]]);
    WriteOne(fs[i]);
    assert fs[..i + 1] == fs[..i] + [fs[i]];
  }

  /** A 64-bit number is written least significant octet first. */
  lemma U64Layout(v: u64)
    ensures var b: seq<nat> := U64Bytes(v);
            v == b[0] + 0x100 * b[1] + 0x1_0000 * b[2] + 0x100_0000 * b[3] + 0x1_0000_0000 * b[4]
                 + 0x100_0000_0000 * b[5] + 0x1_0000_0000_0000 * b[6] + 0x100_0000_0000_0000 * b[7]
  {
    hide Little, Power;
    Widths();
    LittleRoundTrip(v, 8);
    var b := U64Bytes(v);
    FourOctets(b[..4], b[4..]);
    FourOctets(b[4..], []);
    assert b == b[..4] + b[4..] && b[4..] == b[4..] + [];
  }

  lemma FourOctets(b: Bytes, rest: Bytes)
    requires |b| == 4
    ensures FromLittle(b + rest)
         == b[0] + 0x100 * b[1] + 0x1_0000 * b[2] + 0x100_0000 * b[3] + 0x1_0000_0000 * FromLittle(rest)
  {
    var x := b + rest;
    assert x[1..][1..][1..][1..] == rest;
    assert x[1..][0] == b[1] && x[1..][1..][0] == b[2] && x[1..][1..][1..][0] == b[3];
    assert FromLittle(x[1..][1..][1..]) == b[3] + 256 * FromLittle(rest);
    assert FromLittle(x[1..][1..]) == b[2] + 256 * FromLittle(x[1..][1..][1..]);
  }

  /** A string of octets is written behind its length, four octets of it, least significant first. */
  lemma PrefixedLayout(data: Bytes)
    requires |data| < 0x1_0000_0000
    ensures var b: seq<nat> := Prefixed(data);
            |data| == b[0] + 0x100 * b[1] + 0x1_0000 * b[2] + 0x100_0000 * b[3] && b[4..] == data
  {
    hide Little, Power;
    Widths();
    RestSmall(|data|);
    LittleRoundTrip(|data|, 4);
    var b := Prefixed(data);
    FourOctets(b[..4], []);
    assert b[..4] == Little(|data|, 4) && b[..4] + [] == b[..4];
  }

  lemma RestSmall(n: nat)
    requires n < TWO32
    ensures Rest(n, TWO32) == n
  {
  }

  /** A signed number is written as itself or, below zero, with 2^64 added. */
  lemma UnsignedMeaning(v: i64)
    ensures Unsigned(v) == v || Unsigned(v) == v + 0x1_0000_0000_0000_0000
  {
  }

  /** What is signed and hashed of a transaction, in this order. */
  lemma TxLayout(t: Tx)
    requires OctetString(t.from) && OctetString(t.to)
    ensures Write(SigningFields(t))
         == Prefixed(StringOctets(t.from)) + Prefixed(StringOctets(t.to)) + U64Bytes(t.amount) + U64Bytes(t.fee)
            + U64Bytes(t.nonce) + U64Bytes(Unsigned(t.time)) + Prefixed(if t.pubKey.Some? then t.pubKey.value else [])
    ensures Write(FullFields(t))
         == Write(SigningFields(t)) + Prefixed(if t.sig.Some? then t.sig.value else [])
  {
    hide U64Bytes, Prefixed, Write;
    SevenFields(SigningFields(t));
    assert [] + Prefixed(StringOctets(t.from)) == Prefixed(StringOctets(t.from));
    FullIsSigningThenSignature(t);
  }

  /** The id covers the signing bytes followed by the length-prefixed signature. */
  lemma FullIsSigningThenSignature(t: Tx)
    requires OctetString(t.from) && OctetString(t.to)
    ensures Write(FullFields(t)) == Write(SigningFields(t)) + Prefixed(Written(t.sig))
  {
    WriteConcat(SigningFields(t), [Octets(Written(t.sig))]);
    WriteOne(Octets(Written(t.sig)));
  }

  // ----- headers -----

  function HeaderFields(b: Block): (fs: seq<Field>)
    requires OctetString(b.miner)
    ensures |fs| == 8
  {
    FixedFields(b) + [Number(b.nonce)]
  }

  /** Everything in front of the nonce. */
  function FixedFields(b: Block): (fs: seq<Field>)
    requires OctetString(b.miner)
    ensures |fs| == 7
  {
    [Number(b.height), Octets(HashOctets(b.prevHash)), Number(Unsigned(b.time)), Number(b.difficulty),
     Octets(StringOctets(b.miner)), Number(b.extraNonce), Octets(HashOctets(b.merkleRoot))]
  }

  method EncodeHeader(b: Block) returns (out: Bytes)
    requires OctetString(b.miner)
    ensures out == Write(HeaderFields(b))
  {
    hide FieldBytes;
    var buf := new Buffer();
    buf.WriteU64(b.height);
    buf.WriteBytes(HashOctets(b.prevHash));
    buf.WriteI64(b.time);
    buf.WriteU64(b.difficulty);
    buf.WriteString(b.miner);
    buf.WriteU64(b.extraNonce);
    buf.WriteBytes(HashOctets(b.merkleRoot));
    SevenFields(FixedFields(b));
    WriteConcat(FixedFields(b), [Number(b.nonce)]);
    WriteOne(Number(b.nonce));
    buf.WriteU64(b.nonce);
    out := buf.data;
  }

  /** What is hashed of a header, in this order. */
  lemma HeaderLayout(b: Block)
    requires OctetString(b.miner)
    ensures Write(HeaderFields(b))
         == U64Bytes(b.height) + Prefixed(HashOctets(b.prevHash)) + U64Bytes(Unsigned(b.time)) + U64Bytes(b.difficulty)
            + Prefixed(StringOctets(b.miner)) + U64Bytes(b.extraNonce) + Prefixed(HashOctets(b.merkleRoot))
            + U64Bytes(b.nonce)
  {
    hide U64Bytes, Prefixed, Write, HashOctets;
    SevenFields(FixedFields(b));
    assert [] + U64Bytes(b.height) == U64Bytes(b.height);
    HeaderShape(b);
  }

  /** A header is 116 octets and the miner's address, and ends in the little-endian nonce. */
  lemma HeaderShape(b: Block)
    requires OctetString(b.miner)
    ensures |Write(FixedFields(b))| == 108 + |b.miner|
    ensures Write(HeaderFields(b)) == Write(FixedFields(b)) + U64Bytes(b.nonce)
  {
    SevenFields(FixedFields(b));
    WriteConcat(FixedFields(b), [Number(b.nonce)]);
    WriteOne(Number(b.nonce));
  }

  // ----- reading the fields back -----

  datatype Parsed<+T> = Fail | Got(value: T, rest: Bytes)

  function ReadU64(x: Bytes): Parsed<u64> {
    if |x| < 8 then Fail
    else
      Widths();
      FromLittleRoundTrip(x[..8]);
      Got(FromLittle(x[..8]), x[8..])
  }

  function ReadBytes(x: Bytes): Parsed<Bytes> {
    if |x| < 4 then Fail
    else
      var n := FromLittle(x[..4]);
      if |x| - 4 < n then Fail else Got(x[4..4 + n], x[4 + n..])
  }

  lemma ReadU64Back(v: u64, rest: Bytes)
    ensures ReadU64(U64Bytes(v) + rest) == Got(v, rest)
  {
    hide Little, FromLittle, Power;
    Widths();
    LittleRoundTrip(v, 8);
    var x := U64Bytes(v) + rest;
    assert x[..8] == U64Bytes(v) && x[8..] == rest;
  }

  lemma ReadBytesBack(data: Bytes, rest: Bytes)
    requires |data| < TWO32
    ensures ReadBytes(Prefixed(data) + rest) == Got(data, rest)
  {
    hide Little, FromLittle, Power;
    Widths();
    LittleRoundTrip(|data|, 4);
    var x := Prefixed(data) + rest;
    assert x[..4] == Little(|data|, 4);
    assert x[4..4 + |data|] == data && x[4 + |data|..] == rest;
  }

  lemma ReadU64Exact(x: Bytes)
    ensures ReadU64(x).Got? ==> x == U64Bytes(ReadU64(x).value) + ReadU64(x).rest
  {
    hide Little, FromLittle, Power;
    if |x| >= 8 {
      FromLittleRoundTrip(x[..8]);
    }
  }

  lemma ReadBytesExact(x: Bytes)
    ensures ReadBytes(x).Got? ==> |ReadBytes(x).value| < TWO32 && x == Prefixed(ReadBytes(x).value) + ReadBytes(x).rest
  {
    hide Little, FromLittle, Power;
    if |x| >= 4 {
      Widths();
      FromLittleRoundTrip(x[..4]);
    }
  }

  /** Reads fields of the given kinds (true for a number) and nothing more. */
  function Read(numbers: seq<bool>, x: Bytes): (r: Option<seq<Field>>)
    ensures r.Some? ==> HasKinds(r.value, numbers)
  {
    if |numbers| == 0 then (if x == [] then Some([]) else None)
    else
      var f := ReadField(numbers[0], x);
      if f.Fail? then None
      else
        var more := Read(numbers[1..], f.rest);
        if more.None? then None else Some([f.value] + more.value)
  }

  predicate HasKinds(fs: seq<Field>, numbers: seq<bool>) {
    |fs| == |numbers| && forall i :: 0 <= i < |fs| ==> fs[i].Number? == numbers[i]
  }

  function ReadField(number: bool, x: Bytes): (r: Parsed<Field>)
    ensures r.Got? ==> r.value.Number? == number
  {
    if number then
      var n := ReadU64(x);
      if n.Fail? then Fail else Got(Number(n.value), n.rest)
    else
      var b := ReadBytes(x);
      if b.Fail? then Fail else Got(Octets(b.value), b.rest)
  }

  /** No field is too long for its 32-bit length. */
  predicate Short(fs: seq<Field>) {
    forall i :: 0 <= i < |fs| && fs[i].Octets? ==> |fs[i].b| < TWO32
  }

  /** Reading undoes writing. */
  lemma {:induction false} ReadWrite(fs: seq<Field>, numbers: seq<bool>)
    requires HasKinds(fs, numbers) && Short(fs)
    ensures Read(numbers, Write(fs)) == Some(fs)
    decreases |fs|
  {
    hide U64Bytes, Prefixed, ReadU64, ReadBytes;
    if |fs| == 0 {
    } else {
      var rest := Write(fs[1..]);
      if fs[0].Number? { ReadU64Back(fs[0].n, rest); } else { ReadBytesBack(fs[0].b, rest); }
      ReadWrite(fs[1..], numbers[1..]);
      assert fs == [fs[0]] + fs[1..];
    }
  }

  /** Writing undoes reading: only the canonical encoding is read. */
  lemma {:induction false} WriteRead(numbers: seq<bool>, x: Bytes)
    ensures var r := Read(numbers, x); r.Some? ==> Short(r.value) && Write(r.value) == x
    decreases |numbers|
  {
    hide U64Bytes, Prefixed, ReadU64, ReadBytes;
    if |numbers| == 0 || Read(numbers, x).None? {
    } else {
      if numbers[0] { ReadU64Exact(x); } else { ReadBytesExact(x); }
      WriteRead(numbers[1..], ReadField(numbers[0], x).rest);
    }
  }

  const HEADER_KINDS := [true, false, true, true, false, true, false, true]
  const TX_KINDS := [false, false, true, true, true, true, false, false]

  function DecodeHeader(x: Bytes): Option<Block> {
    var r := Read(HEADER_KINDS, x);
    if r.None? then None
    else
      var f := r.value;
      if |f[1].b| != 32 || |f[6].b| != 32 then None
      else Some(Block(f[0].n, Value(f[1].b, 256), Signed(f[2].n), f[3].n, OctetsString(f[4].b), f[5].n,
                      Value(f[6].b, 256), f[7].n, []))
  }

  function DecodeTx(x: Bytes): Option<Tx> {
    var r := Read(TX_KINDS, x);
    if r.None? then None
    else
      var f := r.value;
      Some(Tx(OctetsString(f[0].b), OctetsString(f[1].b), f[2].n, f[3].n, f[4].n,
        Signed(f[5].n), Some(f[6].b), Some(f[7].b)))
  }

  /** Field sizes as the program has them: octet strings shorter than 2^32, digests of 32 octets. */
  ghost predicate HeaderFits(b: Block) {
    OctetString(b.miner) && |b.miner| < TWO32 && b.prevHash <= MAX_TARGET && b.merkleRoot <= MAX_TARGET
  }

  ghost predicate TxFits(t: Tx) {
    && OctetString(t.from) && OctetString(t.to) && |t.from| < TWO32 && |t.to| < TWO32
    && |Written(t.pubKey)| < TWO32 && |Written(t.sig)| < TWO32
  }

  lemma StringBack(s: string)
    requires OctetString(s)
    ensures OctetsString(StringOctets(s)) == s
  {
  }

  /** Every field of a header is recovered from its bytes. */
  lemma HeaderRoundTrip(b: Block)
    requires HeaderFits(b)
    ensures DecodeHeader(Write(HeaderFields(b))) == Some(b.(txs := []))
  {
    hide Read, Write, HashOctets, Value, OctetsString;
    ReadWrite(HeaderFields(b), HEADER_KINDS);
    HashRoundTrip(b.prevHash);
    HashRoundTrip(b.merkleRoot);
    StringBack(b.miner);
  }

  /** Every byte string the header decoder accepts is the encoding of what it returns. */
  lemma HeaderCanonical(x: Bytes)
    ensures var r := DecodeHeader(x); r.Some? ==> HeaderFits(r.value) && Write(HeaderFields(r.value)) == x
  {
    hide Read, Write, HashOctets, Value, OctetsString;
    var r := Read(HEADER_KINDS, x);
    WriteRead(HEADER_KINDS, x);
    if DecodeHeader(x).Some? {
      var f := r.value;
      OctetsOfHash(f[1].b);
      OctetsOfHash(f[6].b);
      assert f == HeaderFields(DecodeHeader(x).value);
    }
  }

  /** Every field of a transaction is recovered; a nil slice comes back empty. */
  lemma TxRoundTrip(t: Tx)
    requires TxFits(t)
    ensures DecodeTx(Write(FullFields(t))) == Some(t.(pubKey := Some(Written(t.pubKey)), sig := Some(Written(t.sig))))
  {
    hide Read, Write, OctetsString;
    ReadWrite(FullFields(t), TX_KINDS);
    StringBack(t.from);
    StringBack(t.to);
  }

  lemma TxCanonical(x: Bytes)
    ensures var r := DecodeTx(x); r.Some? ==> TxFits(r.value) && Write(FullFields(r.value)) == x
  {
    hide Read, Write, OctetsString;
    var r := Read(TX_KINDS, x);
    WriteRead(TX_KINDS, x);
    if r.Some? {
      assert r.value == FullFields(DecodeTx(x).value);
    }
  }

  /** Two transactions have the same bytes exactly when all their fields agree. */
  lemma TxBytesIdentify(s: Tx, t: Tx)
    requires TxFits(s) && TxFits(t)
    ensures Write(FullFields(s)) == Write(FullFields(t)) <==> SameTx(s, t)
  {
    hide Write, DecodeTx;
    TxRoundTrip(s);
    TxRoundTrip(t);
    if SameTx(s, t) {
      assert FullFields(s) == FullFields(t);
    }
  }

  /** Two transactions ask for the same signature exactly when all their fields but the signature agree. */
  lemma SigningBytesIdentify(s: Tx, t: Tx)
    requires TxFits(s) && TxFits(t)
    ensures Write(SigningFields(s)) == Write(SigningFields(t)) <==> SameTx(s.(sig := None), t.(sig := None))
  {
    hide Write, Prefixed, SigningFields, FullFields;
    var a, b := s.(sig := None), t.(sig := None);
    TxBytesIdentify(a, b);
    FullIsSigningThenSignature(a);
    FullIsSigningThenSignature(b);
    SignatureUnsigned(s);
    SignatureUnsigned(t);
    var end := Prefixed([]);
    var x, y := Write(SigningFields(s)), Write(SigningFields(t));
    assert (x + end)[..|x + end| - |end|] == x && (y + end)[..|y + end| - |end|] == y;
  }

  lemma SignatureUnsigned(t: Tx)
    requires OctetString(t.from) && OctetString(t.to)
    ensures SigningFields(t.(sig := None)) == SigningFields(t)
  {
  }

  /** Two headers have the same bytes exactly when all their fields but the transactions agree. */
  lemma HeaderBytesIdentify(a: Block, b: Block)
    requires HeaderFits(a) && HeaderFits(b)
    ensures Write(HeaderFields(a)) == Write(HeaderFields(b)) <==> a.(txs := []) == b.(txs := [])
  {
    hide Write, DecodeHeader;
    HeaderRoundTrip(a);
    HeaderRoundTrip(b);
    if a.(txs := []) == b.(txs := []) {
      assert HeaderFields(a) == HeaderFields(b);
    }
  }
}

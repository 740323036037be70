/** Machine integers, results and small sequence facts shared by every module. */
module Basics {

  const TWO64: nat := 0x1_0000_0000_0000_0000
  const TWO63: int := 0x8000_0000_0000_0000

  type u64 = n: nat | n < TWO64
  type i64 = n: int | -TWO63 <= n < TWO63
  type byte = n: nat | n < 256
  type Bytes = seq<byte>

  /** The value a uint64 operation leaves after wrapping around. */
  function WrapU64(n: int): u64 {
    n % TWO64
  }

  /** The value an int64 operation leaves after wrapping around (two's complement). */
  function WrapI64(n: int): i64 {
    (n + TWO63) % TWO64 - TWO63
  }

  /** Wrapping moves a number by a multiple of 2^64 into the range of its type. */
  lemma WrapMeaning(n: int)
    ensures (n - WrapU64(n)) % TWO64 == 0 && (n - WrapI64(n)) % TWO64 == 0
  {
  }

  lemma WrapShift(n: int, k: int)
    ensures WrapI64(n + k * TWO64) == WrapI64(n)
  {
    RemainderShift(n + TWO63, k);
    assert n + k * TWO64 + TWO63 == n + TWO63 + k * TWO64;
  }

  lemma RemainderShift(n: int, k: int)
    ensures (n + k * TWO64) % TWO64 == n % TWO64
  {
    var m := n + k * TWO64;
    assert n == n / TWO64 * TWO64 + n % TWO64 && m == m / TWO64 * TWO64 + m % TWO64;
    var x := k + n / TWO64 - m / TWO64;
    assert x * TWO64 == k * TWO64 + n / TWO64 * TWO64 - m / TWO64 * TWO64;
    assert x * TWO64 == m % TWO64 - n % TWO64;
  }

  datatype Option<+T> = None | Some(value: T)

  datatype Result<+T, +E> = Ok(value: T) | Err(error: E)

  ghost predicate NoDuplicates<T>(s: seq<T>) {
    forall i, j :: 0 <= i < j < |s| ==> s[i] != s[j]
  }

  function Pow2(e: nat): (r: nat)
    ensures r > 0
  {
    if e == 0 then 1 else 2 * Pow2(e - 1)
  }
}

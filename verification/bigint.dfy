/**
 * Arbitrary-precision integers wrapped for interop (src/cadenza/data/BigInt.kt):
 * the bit-length range checks and the narrowing conversions built on them.
 */
module BigInts {
  import opened Wrappers
  import opened Types

  datatype BigInt = BigInt(value: int)

  const LongMaxSafeDouble: int := 9007199254740991  // 2^53 - 1
  const IntMaxSafeFloat: int := 16777215            // 2^24 - 1

  function Pow2(k: nat): (p: nat)
    ensures p >= 1
  {
    if k == 0 then 1 else 2 * Pow2(k - 1)
  }

  /** Bits of a non-negative number, without a sign bit. */
  function Bits(x: nat): nat
  {
    if x == 0 then 0 else 1 + Bits(x / 2)
  }

  /** `BigInteger.bitLength`: minimal two's-complement width excluding the sign bit. */
  function BitLength(v: int): nat
  {
    if v >= 0 then Bits(v) else Bits(-v - 1)
  }

  lemma {:induction false} BitsBound(x: nat, m: nat)
    ensures Bits(x) <= m <==> x < Pow2(m)
  {
    if m > 0 && x > 0 {
      BitsBound(x / 2, m - 1);
    }
  }

  /** `bitLength < k` is exactly the signed k-bit range [-2^(k-1), 2^(k-1)). */
  lemma {:induction false} BitLengthRange(v: int, k: nat)
    requires k >= 1
    ensures BitLength(v) < k <==> -(Pow2(k - 1) as int) <= v < Pow2(k - 1)
  {
    if v >= 0 {
      BitsBound(v, k - 1);
    } else {
      BitsBound(-v - 1, k - 1);
    }
  }

  lemma {:induction false} Pow2Add(a: nat, b: nat)
    ensures Pow2(a + b) == Pow2(a) * Pow2(b)
  {
    if a > 0 {
      Pow2Add(a - 1, b);
    }
  }

  lemma {:induction false} Pow2Values()
    ensures Pow2(7) == 0x80 && Pow2(15) == 0x8000
    ensures Pow2(31) == 0x8000_0000 && Pow2(63) == 0x8000_0000_0000_0000
  {
    assert Pow2(4) == 16;
    Pow2Add(4, 3);
    Pow2Add(8, 7);
    Pow2Add(16, 15);
    Pow2Add(32, 31);
    Pow2Add(4, 4);
    Pow2Add(8, 8);
    Pow2Add(16, 16);
  }

  function FitsInByte(b: BigInt): (r: bool)
    ensures r <==> -0x80 <= b.value < 0x80
  {
    BitLengthRange(b.value, 8);
    Pow2Values();
    BitLength(b.value) < 8
  }

  function FitsInShort(b: BigInt): (r: bool)
    ensures r <==> -0x8000 <= b.value < 0x8000
    ensures FitsInByte(b) ==> r
  {
    BitLengthRange(b.value, 16);
    Pow2Values();
    BitLength(b.value) < 16
  }

  function FitsInInt(b: BigInt): (r: bool)
    ensures r <==> -0x8000_0000 <= b.value < 0x8000_0000
    ensures FitsInShort(b) ==> r
  {
    BitLengthRange(b.value, 32);
    Pow2Values();
    BitLength(b.value) < 32
  }

  function FitsInLong(b: BigInt): (r: bool)
    ensures r <==> -0x8000_0000_0000_0000 <= b.value < 0x8000_0000_0000_0000
    ensures FitsInInt(b) ==> r
  {
    BitLengthRange(b.value, 64);
    Pow2Values();
    BitLength(b.value) < 64
  }

  /** Fits in an Int and is exactly representable as a float. */
  function FitsInFloat(b: BigInt): (r: bool)
    ensures r <==> -IntMaxSafeFloat <= b.value <= IntMaxSafeFloat
    ensures r ==> FitsInInt(b)
  {
    FitsInInt(b) && -IntMaxSafeFloat <= b.value <= IntMaxSafeFloat
  }

  /** Fits in a Long and is exactly representable as a double. */
  function FitsInDouble(b: BigInt): (r: bool)
    ensures r <==> -LongMaxSafeDouble <= b.value <= LongMaxSafeDouble
    ensures r ==> FitsInLong(b)
  {
    FitsInLong(b) && -LongMaxSafeDouble <= b.value <= LongMaxSafeDouble
  }

  function AsByte(b: BigInt): (r: Result<int, Fault>)
    ensures r.Ok? <==> -0x80 <= b.value < 0x80
    ensures r.Ok? ==> r.value == b.value
    ensures r.Err? ==> r.error == UnsupportedMessage
  {
    if FitsInByte(b) then Ok(b.value) else Err(UnsupportedMessage)
  }

  function AsShort(b: BigInt): (r: Result<int, Fault>)
    ensures r.Ok? <==> -0x8000 <= b.value < 0x8000
    ensures r.Ok? ==> r.value == b.value
    ensures r.Err? ==> r.error == UnsupportedMessage
  {
    if FitsInShort(b) then Ok(b.value) else Err(UnsupportedMessage)
  }

  function AsInt(b: BigInt): (r: Result<int, Fault>)
    ensures r.Ok? <==> -0x8000_0000 <= b.value < 0x8000_0000
    ensures r.Ok? ==> r.value == b.value
    ensures r.Err? ==> r.error == UnsupportedMessage
  {
    if FitsInInt(b) then Ok(b.value) else Err(UnsupportedMessage)
  }

  function AsLong(b: BigInt): (r: Result<int, Fault>)
    ensures r.Ok? <==> -0x8000_0000_0000_0000 <= b.value < 0x8000_0000_0000_0000
    ensures r.Ok? ==> r.value == b.value
    ensures r.Err? ==> r.error == UnsupportedMessage
  {
    if FitsInLong(b) then Ok(b.value) else Err(UnsupportedMessage)
  }

  function IsNatural(b: BigInt): (r: bool)
    ensures r <==> b.value >= 0
  {
    b.value >= 0
  }

  /** Interop `isNumber` holds exactly for values that fit in a Long. */
  function IsNumber(b: BigInt): (r: bool)
    ensures r <==> -0x8000_0000_0000_0000 <= b.value < 0x8000_0000_0000_0000
  {
    FitsInLong(b)
  }

  /** `compareTo`, the sign of the difference as `BigInteger.compareTo` returns it. */
  function CompareTo(a: BigInt, b: BigInt): (r: int)
    ensures r == -1 || r == 0 || r == 1
    ensures r < 0 <==> a.value < b.value
    ensures r == 0 <==> a == b
  {
    if a.value < b.value then -1 else if a.value == b.value then 0 else 1
  }

  /** Ordering is a total order compatible with equality: antisymmetry and transitivity. */
  lemma {:induction false} CompareToOrder(a: BigInt, b: BigInt, c: BigInt)
    ensures CompareTo(a, b) == -CompareTo(b, a)
    ensures CompareTo(a, b) <= 0 && CompareTo(b, c) <= 0 ==> CompareTo(a, c) <= 0
  {
  }
}

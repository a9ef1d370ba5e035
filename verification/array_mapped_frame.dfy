/**
 * A frame stored as two dense arrays indexed by popcount
 * (src/cadenza/frame/ArrayMappedDataFrame.kt): bit `s` of the 64-bit mask
 * `obj` says whether slot `s` lives in `adata` (objects) or in `idata` (ints),
 * and its index there is the number of slots of the same sort below it.
 */
module ArrayMappedFrames {
  import opened Wrappers
  import opened Types
  import opened Values

  /** The bit a slot selects: the JVM uses only the low six bits of a shift count. */
  function SlotBit(s: int): bv6
  {
    (s % 64) as bv6
  }

  function Power(k: bv6): bv64
  {
    (1 as bv64) << k
  }

  /** `mask`: `1L shl s`. */
  function Mask(s: int): bv64
  {
    Power(SlotBit(s))
  }

  function Isa(p: bv64, m: bv64): bool
  {
    p & m != 0
  }

  /** Bit `i` of `x`. */
  predicate Bit(x: bv64, i: bv6)
  {
    (x >> i) & 1 == 1
  }

  /** The number of set bits of `x` among bits 0 .. k-1. */
  function CountBelow(x: bv64, k: bv7): nat
    requires k <= 64
  {
    if k == 0 then 0 else CountBelow(x, k - 1) + (if Bit(x, (k - 1) as bv6) then 1 else 0)
  }

  /** `Long.bitCount`. */
  function PopCount(x: bv64): nat
  {
    CountBelow(x, 64)
  }

  /** `p prefix m`. */
  function Prefix(p: bv64, m: bv64): nat
  {
    PopCount((p - 1) & m)
  }

  lemma {:induction false} AndBit(x: bv64, y: bv64, i: bv6)
    ensures Bit(x & y, i) <==> Bit(x, i) && Bit(y, i)
  {
  }

  lemma {:induction false} NotBit(x: bv64, i: bv6)
    ensures Bit(!x, i) <==> !Bit(x, i)
  {
  }

  /** `1 << k` has exactly the bits below k once 1 is taken off. */
  lemma {:induction false} BelowBit(k: bv6, i: bv6)
    ensures Bit(Power(k) - 1, i) <==> i < k
  {
  }

  lemma {:induction false} Narrow(j: bv7)
    requires 0 < j <= 64
    ensures ((j - 1) as bv6) as bv7 == j - 1
  {
  }

  lemma {:induction false} Widen(i: bv6, k: bv6)
    ensures (i < k) <==> (i as bv7 < k as bv7)
    ensures (i as bv7) < 64
  {
  }

  /** Below `k`, `y` has the bits of `x`. */
  lemma {:induction false} CountBelowAgree(x: bv64, y: bv64, k: bv6, j: bv7)
    requires j <= k as bv7
    requires forall i: bv6 :: Bit(y, i) <==> i < k && Bit(x, i)
    ensures CountBelow(y, j) == CountBelow(x, j)
  {
    if j > 0 {
      var i := (j - 1) as bv6;
      CountBelowAgree(x, y, k, j - 1);
      Narrow(j);
      Widen(i, k);
      assert Bit(y, i) == Bit(x, i);
    }
  }

  /** From `k` on, `y` has no bits. */
  lemma {:induction false} CountBelowStops(y: bv64, k: bv6, j: bv7)
    requires k as bv7 <= j <= 64
    requires forall i: bv6 :: Bit(y, i) ==> i < k
    ensures CountBelow(y, j) == CountBelow(y, k as bv7)
  {
    if j > k as bv7 {
      var i := (j - 1) as bv6;
      CountBelowStops(y, k, j - 1);
      Narrow(j);
      Widen(i, k);
      assert !Bit(y, i);
    }
  }

  lemma {:induction false} BelowAnd(k: bv6, m: bv64, i: bv6)
    ensures Bit((Power(k) - 1) & m, i) <==> i < k && Bit(m, i)
  {
    BelowBit(k, i);
    AndBit(Power(k) - 1, m, i);
  }

  /** `prefix` counts exactly the set bits of `m` strictly below bit `k`. */
  lemma {:induction false} PrefixCountsBelow(k: bv6, m: bv64)
    ensures Prefix(Power(k), m) == CountBelow(m, k as bv7)
  {
    forall i: bv6 ensures Bit((Power(k) - 1) & m, i) <==> i < k && Bit(m, i) {
      BelowAnd(k, m, i);
    }
    Widen(k, k);
    CountBelowAgree(m, (Power(k) - 1) & m, k, k as bv7);
    CountBelowStops((Power(k) - 1) & m, k, 64);
  }

  /** `mask(s) isa m` tests bit `s mod 64` of `m`. */
  lemma {:induction false} IsaBit(k: bv6, m: bv64)
    ensures Isa(Power(k), m) <==> Bit(m, k)
  {
  }

  /** Every bit is set in `x` or in `!x`, so the two counts add up to the range. */
  lemma {:induction false} CountComplement(x: bv64, j: bv7)
    requires j <= 64
    ensures CountBelow(x, j) + CountBelow(!x, j) == j as int
  {
    if j > 0 {
      CountComplement(x, j - 1);
      NotBit(x, (j - 1) as bv6);
    }
  }

  lemma {:induction false} PopCountComplement(x: bv64)
    ensures PopCount(x) + PopCount(!x) == 64
  {
    CountComplement(x, 64);
    assert (64 as bv7) as int == 64;
  }

  /** A set bit is counted: the popcount of `x` exceeds its count below that bit. */
  lemma {:induction false} PopCountAbove(x: bv64, i: bv6)
    requires Bit(x, i)
    ensures CountBelow(x, i as bv7) < PopCount(x)
  {
    Widen(i, i);
    CountBelowGrows(x, i, 64);
  }

  lemma {:induction false} CountBelowGrows(x: bv64, i: bv6, j: bv7)
    requires i as bv7 < j <= 64 && Bit(x, i)
    ensures CountBelow(x, i as bv7) < CountBelow(x, j)
  {
    Narrow(j);
    if j - 1 > i as bv7 {
      CountBelowGrows(x, i, j - 1);
    }
  }

  lemma {:induction false} CountBelowOne(j: bv7)
    requires j <= 64
    ensures CountBelow(1, j) == if j == 0 then 0 else 1
  {
    if j > 0 {
      CountBelowOne(j - 1);
      Narrow(j);
    }
  }

  datatype ArrayMappedDataFrame = ArrayMappedDataFrame(adata: seq<Value>, idata: seq<Int32>, obj: bv64)
  {
    /** `int`: the complement of the object mask. */
    function IntMask(): bv64
    {
      !obj
    }

    /** The arrays are exactly as long as their masks have slots. */
    predicate Dense()
    {
      |adata| == PopCount(obj) && |idata| == PopCount(!obj)
    }

    function IsInteger(s: int): bool
    {
      Isa(Mask(s), IntMask())
    }

    function IsObject(s: int): bool
    {
      Isa(Mask(s), obj)
    }

    function ReadA(i: nat): Result<Value, Fault>
    {
      if i < |adata| then Ok(adata[i]) else Err(IndexOutOfBounds)
    }

    function ReadI(i: nat): Result<Value, Fault>
    {
      if i < |idata| then Ok(Int(idata[i])) else Err(IndexOutOfBounds)
    }

    /** `getValue`. */
    function GetValue(s: int): Result<Value, Fault>
    {
      if Isa(Mask(s), obj) then ReadA(Prefix(Mask(s), obj))
      else ReadI(Prefix(Mask(s), IntMask()))
    }

    /**
     * `getValue` reads an object slot from `adata` at the number of object
     * slots below it, and any other slot from `idata` at the number of int slots below it.
     */
    lemma {:induction false} GetValueRank(s: int)
      ensures IsObject(s) ==> GetValue(s) == ReadA(CountBelow(obj, SlotBit(s) as bv7))
      ensures !IsObject(s) ==> GetValue(s) == ReadI(CountBelow(!obj, SlotBit(s) as bv7))
    {
      var k := SlotBit(s);
      PrefixCountsBelow(k, obj);
      PrefixCountsBelow(k, !obj);
    }

    /** `getObject` as written reads an object slot from `idata` at its rank among object slots. */
    lemma {:induction false} GetObjectAsWrittenRank(s: int)
      ensures IsObject(s) ==> GetObjectAsWritten(s) == ReadI(CountBelow(obj, SlotBit(s) as bv7))
    {
      var k := SlotBit(s);
      IntObjectComplement(s);
      PrefixCountsBelow(k, obj);
    }

    /** `getInteger`: refuses object slots, otherwise reads what `getValue` reads. */
    function GetInteger(s: int): (r: Result<Value, Fault>)
      ensures IsObject(s) ==> r == Err(FrameSlotTypeError)
      ensures !IsObject(s) ==> r == GetValue(s)
    {
      if Isa(Mask(s), obj) then Err(FrameSlotTypeError)
      else ReadI(Prefix(Mask(s), IntMask()))
    }

    /** `getObject` as written: refuses int slots, then reads `idata` at the object rank. */
    function GetObjectAsWritten(s: int): (r: Result<Value, Fault>)
      ensures IsInteger(s) ==> r == Err(FrameSlotTypeError)
    {
      if Isa(Mask(s), IntMask()) then Err(FrameSlotTypeError)
      else ReadI(Prefix(Mask(s), obj))
    }

    /** `getObject` reading `adata`: refuses int slots, otherwise reads what `getValue` reads. */
    function GetObject(s: int): (r: Result<Value, Fault>)
      ensures IsInteger(s) ==> r == Err(FrameSlotTypeError)
      ensures !IsInteger(s) ==> r == GetValue(s)
    {
      IntObjectComplement(s);
      if Isa(Mask(s), IntMask()) then Err(FrameSlotTypeError)
      else ReadA(Prefix(Mask(s), obj))
    }

    /** The Double, Float and Long getters always refuse. */
    function GetWide(s: int): (r: Result<Value, Fault>)
      ensures r.Err? && r.error == FrameSlotTypeError
    {
      Err(FrameSlotTypeError)
    }

    /** ... and the matching predicates are always false. */
    function IsWide(s: int): (b: bool)
      ensures !b
    {
      false
    }

    /** Every slot is either an int slot or an object slot, never both. */
    lemma {:induction false} IntObjectComplement(s: int)
      ensures IsInteger(s) <==> !IsObject(s)
    {
      IsaBit(SlotBit(s), obj);
      IsaBit(SlotBit(s), IntMask());
      NotBit(obj, SlotBit(s));
    }

    /** In a dense frame every slot can be read. */
    lemma {:induction false} DenseReadsSucceed(s: int)
      requires Dense()
      ensures GetValue(s).Ok?
      ensures IsObject(s) ==> GetObject(s) == GetValue(s)
      ensures IsInteger(s) ==> GetInteger(s) == GetValue(s)
    {
      var k := SlotBit(s);
      GetValueRank(s);
      IntObjectComplement(s);
      IsaBit(k, obj);
      if IsObject(s) {
        PopCountAbove(obj, k);
      } else {
        NotBit(obj, k);
        PopCountAbove(!obj, k);
      }
    }

    /** A dense frame stores each of the 64 slots exactly once across its two arrays. */
    lemma {:induction false} DenseHolds64()
      requires Dense()
      ensures |adata| + |idata| == 64
    {
      PopCountComplement(obj);
    }
  }

  /**
   * Slot 0 is the only object slot and every int slot holds 7: `getObject` as
   * written answers 7, while `getValue` answers the object.
   */
  lemma {:induction false} GetObjectAsWrittenCounterexample()
    ensures var f := ArrayMappedDataFrame([Boolean(true)], seq(63, _ => 7), 1);
      f.Dense()
      && f.GetObjectAsWritten(0) == Ok(Int(7))
      && f.GetValue(0) == Ok(Boolean(true))
      && f.GetObject(0) == Ok(Boolean(true))
  {
    var f := ArrayMappedDataFrame([Boolean(true)], seq(63, _ => 7), 1);
    assert SlotBit(0) == 0 && Mask(0) == 1;
    assert f.IsObject(0) by { IsaBit(SlotBit(0), 1); }
    assert Prefix(Mask(0), 1) == 0 by { PrefixCountsBelow(SlotBit(0), 1); }
    CountBelowOne(64);
    CountComplement(1, 64);
    assert (64 as bv7) as int == 64;
    assert PopCount(!1) == 63;
  }
}

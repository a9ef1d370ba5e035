/**
 * A frame kept as one array of boxed slots (src/cadenza/frame/SimpleDataFrame.kt):
 * each typed getter checks the slot's runtime class, and the `is*`
 * predicates ask the same question without throwing. A slot outside the
 * array fails with an index error, as the JVM array access does.
 */
module SimpleFrames {
  import opened Wrappers
  import opened Types
  import opened Values

  /** The runtime classes the getters distinguish. */
  datatype Tag = TInt | TLong | TFloat | TDouble | TOther | TNull

  function TagOf(v: Value): Tag
  {
    if v.VPrim? then
      match v.p
      case PInt(_) => TInt
      case PLong(_) => TLong
      case PFloat(_) => TFloat
      case PDouble(_) => TDouble
      case PNull => TNull
      case _ => TOther
    else TOther
  }

  /** `isSimpleObject`: not one of the four unboxed-primitive classes. */
  predicate IsSimpleObject(v: Value)
  {
    TagOf(v) != TDouble && TagOf(v) != TLong && TagOf(v) != TFloat && TagOf(v) != TInt
  }

  datatype SimpleDataFrame = SimpleDataFrame(data: seq<Value>)
  {
    function Size(): (n: nat)
      ensures n == |data|
    {
      |data|
    }

    /** `getValue`: the slot's contents. */
    function GetValue(s: int): (r: Result<Value, Fault>)
      ensures r.Ok? <==> 0 <= s < |data|
      ensures r.Ok? ==> r.value == data[s]
    {
      if 0 <= s < |data| then Ok(data[s]) else Err(IndexOutOfBounds)
    }

    /** The getter shared by `getDouble`, `getFloat`, `getInteger` and `getLong`. */
    function GetTagged(s: int, t: Tag): Result<Value, Fault>
    {
      if !(0 <= s < |data|) then Err(IndexOutOfBounds)
      else if TagOf(data[s]) == t then Ok(data[s])
      else Err(FrameSlotTypeError)
    }

    /** The `is*` predicate shared by `isDouble`, `isFloat` and `isInteger`; out of range it throws too. */
    function IsTagged(s: int, t: Tag): Result<bool, Fault>
    {
      if !(0 <= s < |data|) then Err(IndexOutOfBounds) else Ok(TagOf(data[s]) == t)
    }

    function GetInteger(s: int): Result<Value, Fault> { GetTagged(s, TInt) }
    function GetLong(s: int): Result<Value, Fault> { GetTagged(s, TLong) }
    function GetFloat(s: int): Result<Value, Fault> { GetTagged(s, TFloat) }
    function GetDouble(s: int): Result<Value, Fault> { GetTagged(s, TDouble) }
    function IsInteger(s: int): Result<bool, Fault> { IsTagged(s, TInt) }
    function IsFloat(s: int): Result<bool, Fault> { IsTagged(s, TFloat) }
    function IsDouble(s: int): Result<bool, Fault> { IsTagged(s, TDouble) }

    /** `getObject`: a non-null slot that is not an unboxed primitive. */
    function GetObject(s: int): Result<Value, Fault>
    {
      if !(0 <= s < |data|) then Err(IndexOutOfBounds)
      else if data[s] != VPrim(PNull) && IsSimpleObject(data[s]) then Ok(data[s])
      else Err(FrameSlotTypeError)
    }

    function IsObject(s: int): Result<bool, Fault>
    {
      if !(0 <= s < |data|) then Err(IndexOutOfBounds)
      else Ok(data[s] != VPrim(PNull) && IsSimpleObject(data[s]))
    }

    /**
     * Each typed getter returns the slot itself exactly when the slot has
     * its class, refuses other slots with a slot-type error, and refuses
     * slots outside the array with an index error.
     */
    lemma {:induction false} GetTaggedMeaning(s: int, t: Tag)
      requires t != TOther && t != TNull
      ensures GetTagged(s, t).Ok? <==> 0 <= s < |data| && TagOf(data[s]) == t
      ensures GetTagged(s, t).Ok? ==> GetTagged(s, t) == GetValue(s)
      ensures 0 <= s < |data| && TagOf(data[s]) != t ==> GetTagged(s, t) == Err(FrameSlotTypeError)
      ensures !(0 <= s < |data|) ==> GetTagged(s, t) == Err(IndexOutOfBounds)
    {
    }

    /** `isInteger`, `isFloat` and `isDouble` are true exactly when the matching getter succeeds. */
    lemma {:induction false} IsAgreesWithGet(s: int, t: Tag)
      requires 0 <= s < |data|
      ensures IsTagged(s, t) == Ok(GetTagged(s, t).Ok?)
    {
    }

    /** `getObject` succeeds iff the slot is non-null and not an Int, Long, Float or Double. */
    lemma {:induction false} GetObjectMeaning(s: int)
      requires 0 <= s < |data|
      ensures GetObject(s).Ok? <==> TagOf(data[s]) == TOther
      ensures GetObject(s).Ok? ==> GetObject(s) == GetValue(s)
    {
    }

    /** `isObject` is true exactly when `getObject` would succeed. */
    lemma {:induction false} IsObjectAgreesWithGet(s: int)
      requires 0 <= s < |data|
      ensures IsObject(s) == Ok(GetObject(s).Ok?)
    {
    }

    /** No slot answers true to two of `isInteger`, `isDouble`, `isFloat` and `isObject`. */
    lemma {:induction false} AtMostOneHolds(s: int)
      requires 0 <= s < |data|
      ensures var n := (if IsInteger(s) == Ok(true) then 1 else 0) + (if IsDouble(s) == Ok(true) then 1 else 0)
        + (if IsFloat(s) == Ok(true) then 1 else 0) + (if IsObject(s) == Ok(true) then 1 else 0);
        n <= 1
      ensures data[s] == VPrim(PNull) || TagOf(data[s]) == TLong ==>
        IsInteger(s) == IsDouble(s) == IsFloat(s) == IsObject(s) == Ok(false)
    {
    }
  }
}

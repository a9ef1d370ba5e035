/**
 * Curried types of cadenza (src/cadenza/types.kt): arrows, IO, Bool, Obj, Unit, Nat.
 * Also the runtime failures that the evaluation core can raise.
 */
module Types {
  import opened Wrappers

  /** The frame-slot kinds used as representation hints (Truffle's FrameSlotKind). */
  datatype SlotKind = Illegal | KBoolean | KInt | KLong | KFloat | KDouble | KObject

  datatype Type =
    | Arr(argument: Type, result: Type)
    | IO(io: Type)
    | Bool
    | Obj
    | UnitTy
    | Nat

  /** Exceptions of the evaluation core, one constructor per exception class thrown. */
  datatype Fault =
    | TypeError(msg: string, actual: Option<Type>, expected: Option<Type>)
    | UnsupportedType(msg: string)
    | ArityError(expectedCount: int, actualCount: int)
    | ClassCast
    | IndexOutOfBounds
    | Panic(msg: string)
    | AssertionFailed(msg: string)
    | ArithmeticError(msg: string)
    | FrameSlotTypeError
    | UnsupportedMessage
    | UnsupportedSpecialization
    | NumberFormat
    | Todo(msg: string)
    | OutOfFuel

  /** The number of right-nested arrows. */
  function Arity(t: Type): (n: nat)
    ensures t.Arr? <==> n > 0
    ensures t.Arr? ==> n == Arity(t.result) + 1
  {
    if t.Arr? then Arity(t.result) + 1 else 0
  }

  /** The slot-kind hint `rep`: Boolean for Bool, Int for Nat, Object otherwise. */
  function Rep(t: Type): (k: SlotKind)
    ensures k == KBoolean <==> t == Bool
    ensures k == KInt <==> t == Nat
    ensures k != KBoolean && k != KInt ==> k == KObject
  {
    match t
    case Bool => KBoolean
    case Nat => KInt
    case _ => KObject
  }

  /**
   * `t.after(n)` as a specification: strip `n` result layers, or None where
   * the cast to an arrow would fail.
   */
  function Peel(t: Type, n: nat): Option<Type>
  {
    if n == 0 then Some(t)
    else if t.Arr? then Peel(t.result, n - 1)
    else None
  }

  /** `after(n)` is defined exactly up to the arity, and lowers the arity by n. */
  lemma {:induction false} PeelArity(t: Type, n: nat)
    ensures Peel(t, n).Some? <==> n <= Arity(t)
    ensures Peel(t, n).Some? ==> Arity(Peel(t, n).value) == Arity(t) - n
  {
    if n > 0 && t.Arr? {
      PeelArity(t.result, n - 1);
    }
  }

  /** Stripping `a` then `b` layers is stripping `a + b` layers. */
  lemma {:induction false} PeelAdd(t: Type, a: nat, b: nat)
    requires Peel(t, a).Some?
    ensures Peel(t, a + b) == Peel(Peel(t, a).value, b)
  {
    if a > 0 {
      PeelAdd(t.result, a - 1, b);
    }
  }

  /** One more step of the loop in `after`. */
  lemma {:induction false} PeelStep(t: Type, i: nat)
    requires Peel(t, i).Some?
    ensures Peel(t, i + 1) == (if Peel(t, i).value.Arr? then Some(Peel(t, i).value.result) else None)
  {
    PeelAdd(t, i, 1);
  }

  /**
   * `Type.after(n)`: the loop advancing `current` through `n` result layers.
   * A failed cast is a ClassCastException.
   */
  method After(t: Type, n: nat) returns (r: Result<Type, Fault>)
    ensures r.Ok? <==> n <= Arity(t)
    ensures r.Ok? ==> Some(r.value) == Peel(t, n) && Arity(r.value) == Arity(t) - n
    ensures r.Err? ==> r.error == ClassCast
  {
    PeelArity(t, n);
    var current := t;
    var i := 0;
    while i < n
      invariant 0 <= i <= n
      invariant Peel(t, i) == Some(current)
    {
      PeelStep(t, i);
      if !current.Arr? {
        NoPeelBeyond(t, i + 1, n);
        return Err(ClassCast);
      }
      current := current.result;
      i := i + 1;
    }
    return Ok(current);
  }

  /** Once stripping fails it keeps failing. */
  lemma {:induction false} NoPeelBeyond(t: Type, i: nat, n: nat)
    requires i <= n && Peel(t, i).None?
    ensures Peel(t, n).None?
  {
    PeelArity(t, i);
    PeelArity(t, n);
  }

  /** The type of the k-th argument (0-based) of a curried arrow, if it has one. */
  function ArgumentAt(t: Type, k: nat): (r: Option<Type>)
    ensures r.Some? <==> k < Arity(t)
  {
    if !t.Arr? then None
    else if k == 0 then Some(t.argument)
    else ArgumentAt(t.result, k - 1)
  }

  /** `match`: succeeds iff the types are structurally equal, else raises TypeError(actual, expected). */
  function Match(actual: Type, expected: Type): (r: Result<(), Fault>)
    ensures r.Ok? <==> actual == expected
    ensures r.Err? ==> r.error == TypeError("type mismatch", Some(actual), Some(expected))
  {
    if actual == expected then Ok(())
    else Err(TypeError("type mismatch", Some(actual), Some(expected)))
  }

  /** The arrow type `t1 -> t2 -> ... -> body` built right to left. */
  function Arrows(args: seq<Type>, body: Type): (r: Type)
    ensures Arity(r) == |args| + Arity(body)
    ensures forall k :: 0 <= k < |args| ==> ArgumentAt(r, k) == Some(args[k])
    ensures Peel(r, |args|) == Some(body)
  {
    if |args| == 0 then body
    else
      var rest := Arrows(args[1..], body);
      assert forall k :: 1 <= k < |args| ==> ArgumentAt(Arr(args[0], rest), k) == ArgumentAt(rest, k - 1);
      Arr(args[0], rest)
  }
}

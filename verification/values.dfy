/**
 * Runtime values of the JIT (src/cadenza/data): primitives, closures, neutral
 * (stuck) terms, materialised frames; and the runtime `validate` of each type
 * (src/cadenza/types.kt).
 */
module Values {
  import opened Wrappers
  import opened Types
  import opened BigInts

  /** A Kotlin/JVM `Int`. */
  type Int32 = x: int | -0x8000_0000 <= x < 0x8000_0000

  /** Boxed primitive values; floats are kept as opaque bit patterns. */
  datatype Prim =
    | PInt(i: Int32)
    | PLong(l: int)
    | PFloat(fbits: int)
    | PDouble(dbits: int)
    | PBool(b: bool)
    | PBig(big: BigInt)
    | PUnit
    | PNull

  /**
   * A RootCallTarget, abstracted to what the calling convention inspects: a
   * closure body with its arity and whether it expects a captured environment
   * first (a super-combinator), or the root node of a builtin.
   */
  datatype Target =
    | ClosureBody(id: nat, rootArity: nat, superCombinator: bool)
    | BuiltinBody(builtin: BuiltinId)

  /** A MaterializedFrame: a descriptor identity and slot contents. */
  datatype MFrame = MFrame(descriptor: nat, slots: map<int, Value>)

  datatype Closure = Closure(env: Option<MFrame>, papArgs: seq<Value>, arity: nat, targetType: Type, target: Target)

  /** The builtins of src/cadenza/jit/builtin.kt; FixNatF1 holds the closure it fixes. */
  datatype BuiltinId = Le | Eq | Plus | Minus | Mult | Div | Mod | FixNatF | FixNatF1(f: Closure) | PrintId

  /** Neutral terms: a stuck computation; NAtom stands for a free variable. */
  datatype Neutral =
    | NAtom(id: nat)
    | NIf(body: Neutral, thenValue: Value, elseValue: Value)
    | NCallBuiltin(builtin: BuiltinId, arg: Neutral)
    | NApp(rator: Neutral, rands: seq<Value>)

  datatype Value =
    | VPrim(p: Prim)
    | VClosure(c: Closure)
    | VNeutral(ty: Type, term: Neutral)   // NeutralValue
    | VFrame(frame: MFrame)
    | VException(carried: Value)          // an UnexpectedResultException object
    | VOpaque(id: nat)                    // any other host object

  function Int(i: Int32): Value { VPrim(PInt(i)) }
  function Boolean(b: bool): Value { VPrim(PBool(b)) }

  /** `Closure.type`: the target type with one arrow removed per partially applied argument. */
  function ClosureType(c: Closure): (r: Option<Type>)
    ensures r == Peel(c.targetType, |c.papArgs|)
    ensures r.Some? <==> |c.papArgs| <= Arity(c.targetType)
  {
    PeelArity(c.targetType, |c.papArgs|);
    Peel(c.targetType, |c.papArgs|)
  }

  /** A non-negative Int or a natural BigInt: the values of type Nat. */
  predicate IsNat(v: Value)
  {
    v.VPrim? && ((v.p.PInt? && v.p.i >= 0) || (v.p.PBig? && IsNatural(v.p.big)))
  }

  /**
   * `Arr.validate` as written: the closure's whole type is compared with the
   * arrow's ARGUMENT type.
   */
  function ValidateArrowAsWritten(t: Type, v: Value): (r: Result<(), Fault>)
    requires t.Arr?
    ensures r.Ok? <==> v.VClosure? && ClosureType(v.c) == Some(t.argument)
  {
    if !v.VClosure? then Err(UnsupportedType("expected closure"))
    else match ClosureType(v.c)
      case None => Err(ClassCast)
      case Some(ct) => if t.argument != ct then Err(UnsupportedType("wrong closure type")) else Ok(())
  }

  /** The as-written check rejects every closure whose type is exactly the expected arrow. */
  lemma {:induction false} ValidateArrowAsWrittenRejectsExact(t: Type, c: Closure)
    requires t.Arr? && ClosureType(c) == Some(t)
    ensures ValidateArrowAsWritten(t, VClosure(c)).Err?
  {
    assert t.argument < t;
  }

  /** Concretely: the identity on Nat does not validate as a `Nat -> Nat` argument. */
  lemma {:induction false} ValidateArrowAsWrittenCounterexample()
    ensures var id := Closure(None, [], 1, Arr(Nat, Nat), ClosureBody(0, 1, false));
      ValidateArrowAsWritten(Arr(Nat, Nat), VClosure(id)).Err? && Validate(Arr(Nat, Nat), VClosure(id)).Ok?
  {
    var id := Closure(None, [], 1, Arr(Nat, Nat), ClosureBody(0, 1, false));
    ValidateArrowAsWrittenRejectsExact(Arr(Nat, Nat), id);
  }

  /** `validate` of each type, with the arrow case comparing the closure type with the arrow itself. */
  function Validate(t: Type, v: Value): (r: Result<(), Fault>)
    ensures t == Obj ==> r.Ok?
    ensures t == Bool ==> (r.Ok? <==> v.VPrim? && v.p.PBool?)
    ensures t == UnitTy ==> (r.Ok? <==> v == VPrim(PUnit))
    ensures t == Nat ==> (r.Ok? <==> IsNat(v))
    ensures t.IO? ==> r == Err(Todo("io"))
    ensures t.Arr? ==> (r.Ok? <==> v.VClosure? && ClosureType(v.c) == Some(t))
  {
    match t
    case Arr(_, _) =>
      if !v.VClosure? then Err(UnsupportedType("expected closure"))
      else (match ClosureType(v.c)
        case None => Err(ClassCast)
        case Some(ct) => if t != ct then Err(UnsupportedType("wrong closure type")) else Ok(()))
    case IO(_) => Err(Todo("io"))
    case Bool => if v.VPrim? && v.p.PBool? then Ok(()) else Err(UnsupportedType("expected boolean"))
    case Obj => Ok(())
    case UnitTy => if v == VPrim(PUnit) then Ok(()) else Err(UnsupportedType("expected unit"))
    case Nat => if IsNat(v) then Ok(()) else Err(UnsupportedType("expected nat"))
  }

  /**
   * `validate` as the source dispatches it: `Arr.validate` as written for an
   * arrow, the type's own check otherwise.
   */
  function ValidateAsWritten(t: Type, v: Value): (r: Result<(), Fault>)
    ensures t.Arr? ==> (r.Ok? <==> v.VClosure? && ClosureType(v.c) == Some(t.argument))
    ensures !t.Arr? ==> r == Validate(t, v)
  {
    if t.Arr? then ValidateArrowAsWritten(t, v) else Validate(t, v)
  }
}

/**
 * The JIT expression nodes (src/cadenza/jit/code.kt) as an evaluator over
 * their execute variants. A node's variant either returns a value, signals a
 * stuck computation (NeutralException), signals a tag miss
 * (UnexpectedResultException) or fails.
 */
module Code {
  import opened Wrappers
  import opened Types
  import opened BigInts
  import opened Values
  import opened Nbe
  import opened Closures
  import opened Builtins

  /** The execute variants of a node: `execute`, `executeAny`, and the typed ones. */
  datatype Variant = Generic | AnyV | ClosureV | IntegerV | BooleanV | UnitV

  datatype Code =
    | App(rator: Code, rands: seq<Code>)
    | Arg(index: nat)
    | If(ty: Type, cond: Code, thenNode: Code, elseNode: Code)
    | Lam(descriptor: Option<nat>, captureSteps: seq<CaptureStep>, arity: nat, target: Target, ty: Type)
    | Var(slot: int)
    | Ann(body: Code, annTy: Type)
    | CallBuiltin(callTy: Type, builtin: BuiltinId, args: seq<Code>)
    | LitBool(b: bool)
    | LitInt(i: Int32)
    | LitBigInt(n: BigInt)

  /** A FrameBuilder: write the value of `rhs` into `slot` of the frame being built. */
  datatype CaptureStep = CaptureStep(slot: int, rhs: Code)

  /** A VirtualFrame: the call's arguments and the local slots. */
  datatype Frame = Frame(arguments: seq<Value>, slots: map<int, Value>)

  function Size(c: Code): (n: nat)
    ensures n >= 1
    decreases c
  {
    match c
    case App(r, rs) => 1 + Size(r) + SizeAll(rs)
    case If(_, a, b, d) => 1 + Size(a) + Size(b) + Size(d)
    case Lam(_, steps, _, _, _) => 1 + SizeSteps(steps)
    case Ann(b, _) => 1 + Size(b)
    case CallBuiltin(_, _, args) => 1 + SizeAll(args)
    case _ => 1
  }

  function SizeAll(cs: seq<Code>): nat
    decreases cs
  {
    if |cs| == 0 then 0 else Size(cs[0]) + SizeAll(cs[1..])
  }

  function SizeSteps(steps: seq<CaptureStep>): nat
    decreases steps
  {
    if |steps| == 0 then 0 else SizeStep(steps[0]) + SizeSteps(steps[1..])
  }

  function SizeStep(step: CaptureStep): nat
    decreases step
  {
    Size(step.rhs)
  }

  function Rank(v: Variant): nat
  {
    if v == Generic then 0 else 1
  }

  /** Does the value carry the tag a typed variant asks for? */
  predicate HasTag(v: Variant, x: Value)
  {
    match v
    case ClosureV => x.VClosure?
    case IntegerV => x.VPrim? && x.p.PInt?
    case BooleanV => x.VPrim? && x.p.PBool?
    case UnitV => x == VPrim(PUnit)
    case _ => true
  }

  /**
   * The default variants in terms of `execute`: `executeAny` turns a stuck
   * signal into its NeutralValue, the typed ones pass a value of the requested
   * tag and signal a tag miss otherwise, `executeUnit` discards the value.
   */
  function Expect(v: Variant, o: Outcome): (r: Outcome)
    ensures v == AnyV ==> !r.Stuck? && (o.Stuck? ==> r == Done(Get(o)))
    ensures v != AnyV && v != UnitV && o.Done? ==>
      (HasTag(v, o.value) ==> r == o) && (!HasTag(v, o.value) ==> r == Unexpected(o.value))
    ensures r.Done? ==> HasTag(v, r.value)
    ensures !o.Done? && !o.Stuck? ==> r == o
  {
    match o
    case Done(x) =>
      if v == UnitV then Done(VPrim(PUnit))
      else if HasTag(v, x) then o
      else Unexpected(x)
    case Stuck(_, _) => if v == AnyV then Done(Get(o)) else o
    case _ => o
  }

  /**
   * Evaluating a node in a frame with one of its variants. `invoke` runs call
   * targets and `fuel` bounds over-application chains.
   */
  function Exec(invoke: Invoke, fuel: nat, c: Code, f: Frame, v: Variant): Outcome
    decreases Size(c), Rank(v)
  {
    match c
    case App(rator, rands) =>
      if v != Generic then Expect(v, Exec(invoke, fuel, c, f, Generic))
      else
        (match Exec(invoke, fuel, rator, f, ClosureV)
         case Done(VClosure(fn)) =>
           (match ExecAll(invoke, fuel, rands, f)
            case Ok(vals) => Apply(invoke, fn, vals, fuel)
            case Err(o) => o)
         case Stuck(t, n) =>
           (match ExecAll(invoke, fuel, rands, f)
            case Ok(vals) => StuckApply(t, n, vals)
            case Err(o) => o)
         case Failed(e) => Failed(e)
         case _ => Failed(Panic("closure expected")))
    case Arg(index) =>
      if index >= |f.arguments| then Failed(AssertionFailed("insufficient arguments"))
      else if v == AnyV then Done(f.arguments[index])
      else Expect(v, ThrowIfNeutralValue(f.arguments[index]))
    case If(ty, cond, thenNode, elseNode) =>
      if v == Generic || v == IntegerV || v == BooleanV then
        (match Branch(invoke, fuel, ty, cond, thenNode, elseNode, f)
         case Ok(true) => Exec(invoke, fuel, thenNode, f, v)
         case Ok(false) => Exec(invoke, fuel, elseNode, f, v)
         case Err(o) => o)
      else Expect(v, Exec(invoke, fuel, c, f, Generic))
    case Lam(descriptor, steps, arity, target, ty) =>
      if v == Generic || v == ClosureV then
        (match CaptureEnv(invoke, fuel, descriptor, steps, f)
         case Ok(env) => Done(VClosure(Closure(env, [], arity, ty, target)))
         case Err(o) => o)
      else Expect(v, Exec(invoke, fuel, c, f, Generic))
    case Var(slot) =>
      Expect(v, Done(if slot in f.slots then f.slots[slot] else VPrim(PNull)))
    case Ann(body, _) =>
      if v == UnitV then Expect(v, Exec(invoke, fuel, body, f, Generic))
      else Exec(invoke, fuel, body, f, v)
    case CallBuiltin(ty, builtin, args) =>
      var o :=
        (match ExecArgs(invoke, fuel, args, f)
         case Ok(vals) => Run(invoke, builtin, vals, fuel)
         case Err(o) => o);
      Expect(v, if o.Stuck? then Stuck(ty, NCallBuiltin(builtin, o.term)) else o)
    case LitBool(b) =>
      Expect(v, Done(Boolean(b)))
    case LitInt(i) =>
      Expect(v, Done(Int(i)))
    case LitBigInt(n) =>
      if v == IntegerV then
        (if FitsInInt(n) then Done(Int(n.value)) else Unexpected(VPrim(PBig(n))))
      else Expect(v, Done(VPrim(PBig(n))))
  }

  /** `App.executeRands`: every operand with `executeAny`, left to right; the first failure ends it. */
  function ExecAll(invoke: Invoke, fuel: nat, cs: seq<Code>, f: Frame): (r: Result<seq<Value>, Outcome>)
    ensures r.Ok? ==> |r.value| == |cs|
    decreases SizeAll(cs), 2
  {
    if |cs| == 0 then Ok([])
    else match Exec(invoke, fuel, cs[0], f, AnyV)
      case Done(x) =>
        (match ExecAll(invoke, fuel, cs[1..], f)
         case Ok(xs) => Ok([x] + xs)
         case Err(o) => Err(o))
      case o => Err(o)
  }

  /** The operands of a builtin call with `execute`, left to right; a stuck one ends it. */
  function ExecArgs(invoke: Invoke, fuel: nat, cs: seq<Code>, f: Frame): (r: Result<seq<Value>, Outcome>)
    ensures r.Ok? ==> |r.value| == |cs|
    decreases SizeAll(cs), 2
  {
    if |cs| == 0 then Ok([])
    else match Exec(invoke, fuel, cs[0], f, Generic)
      case Done(x) =>
        (match ExecArgs(invoke, fuel, cs[1..], f)
         case Ok(xs) => Ok([x] + xs)
         case Err(o) => Err(o))
      case o => Err(o)
  }

  /**
   * `If.branch`: the condition with `executeBoolean`; a tag miss panics, and a
   * stuck condition evaluates both branches with `executeAny` and is stuck on NIf.
   */
  function Branch(invoke: Invoke, fuel: nat, ty: Type, cond: Code, thenNode: Code, elseNode: Code, f: Frame): Result<bool, Outcome>
    decreases Size(cond) + Size(thenNode) + Size(elseNode), 2
  {
    match Exec(invoke, fuel, cond, f, BooleanV)
    case Done(VPrim(PBool(b))) => Ok(b)
    case Stuck(_, n) =>
      (match Exec(invoke, fuel, thenNode, f, AnyV)
       case Done(tv) =>
         (match Exec(invoke, fuel, elseNode, f, AnyV)
          case Done(ev) => Err(Stuck(ty, NIf(n, tv, ev)))
          case o => Err(o))
       case o => Err(o))
    case Failed(e) => Err(Failed(e))
    case _ => Err(Failed(Panic("non-boolean branch")))
  }

  /**
   * `Lam.captureEnv`: no frame without a descriptor; otherwise a fresh frame
   * with that descriptor filled by the capture steps in order, each storing its
   * right-hand side's `executeAny` value.
   */
  function CaptureEnv(invoke: Invoke, fuel: nat, descriptor: Option<nat>, steps: seq<CaptureStep>, f: Frame): (r: Result<Option<MFrame>, Outcome>)
    ensures descriptor.None? ==> r == Ok(None)
    ensures r.Ok? && descriptor.Some? ==> r.value.Some? && r.value.value.descriptor == descriptor.value
    decreases SizeSteps(steps), 3
  {
    if descriptor.None? then Ok(None)
    else match BuildSteps(invoke, fuel, steps, f, map[])
      case Ok(slots) => Ok(Some(MFrame(descriptor.value, slots)))
      case Err(o) => Err(o)
  }

  function BuildSteps(invoke: Invoke, fuel: nat, steps: seq<CaptureStep>, f: Frame, slots: map<int, Value>): (r: Result<map<int, Value>, Outcome>)
    ensures r.Ok? ==> slots.Keys <= r.value.Keys
    ensures r.Ok? ==> forall i :: 0 <= i < |steps| ==> steps[i].slot in r.value
    decreases SizeSteps(steps), 2
  {
    if |steps| == 0 then Ok(slots)
    else
      assert SizeSteps(steps) == SizeStep(steps[0]) + SizeSteps(steps[1..]);
      match Exec(invoke, fuel, steps[0].rhs, f, AnyV)
      case Done(x) => BuildSteps(invoke, fuel, steps[1..], f, slots[steps[0].slot := x])
      case o => Err(o)
  }

  // ---------------------------------------------------------------------------
  // Properties of the evaluator
  // ---------------------------------------------------------------------------

  /**
   * Signal discipline: `execute` never signals a tag miss, `executeAny` neither
   * a tag miss nor a stuck computation, and a typed variant returns a value only
   * when it carries the requested tag.
   */
  lemma {:induction false} ExecSignals(invoke: Invoke, fuel: nat, c: Code, f: Frame, v: Variant)
    requires NoTagMiss(invoke)
    ensures v == Generic ==> !Exec(invoke, fuel, c, f, v).Unexpected?
    ensures v == AnyV ==> Exec(invoke, fuel, c, f, v).Done? || Exec(invoke, fuel, c, f, v).Failed?
    ensures Exec(invoke, fuel, c, f, v).Done? ==> HasTag(v, Exec(invoke, fuel, c, f, v).value)
    decreases Size(c), Rank(v)
  {
    if v != Generic && !c.Arg? && !c.Var? && !c.LitBool? && !c.LitInt? && !c.LitBigInt? {
      ExecSignals(invoke, fuel, c, f, Generic);
    }
    match c
    case App(rator, rands) =>
      if v == Generic {
        ExecSignals(invoke, fuel, rator, f, ClosureV);
        ExecAllSignals(invoke, fuel, rands, f);
        var o := Exec(invoke, fuel, rator, f, ClosureV);
        if o.Done? && o.value.VClosure? && ExecAll(invoke, fuel, rands, f).Ok? {
          ApplyNoTagMiss(invoke, o.value.c, ExecAll(invoke, fuel, rands, f).value, fuel);
        }
      }
    case Arg(_) =>
    case If(ty, cond, thenNode, elseNode) =>
      BranchSignals(invoke, fuel, ty, cond, thenNode, elseNode, f);
      if v == Generic || v == IntegerV || v == BooleanV {
        ExecSignals(invoke, fuel, thenNode, f, v);
        ExecSignals(invoke, fuel, elseNode, f, v);
      }
    case Lam(descriptor, steps, _, _, _) =>
      CaptureEnvSignals(invoke, fuel, descriptor, steps, f);
    case Var(_) =>
    case Ann(body, _) =>
      ExecSignals(invoke, fuel, body, f, v);
      ExecSignals(invoke, fuel, body, f, Generic);
    case CallBuiltin(ty, builtin, args) =>
      ExecArgsSignals(invoke, fuel, args, f);
      if ExecArgs(invoke, fuel, args, f).Ok? {
        RunNoTagMiss(invoke, builtin, ExecArgs(invoke, fuel, args, f).value, fuel);
      }
    case LitBool(_) =>
    case LitInt(_) =>
    case LitBigInt(_) =>
  }

  lemma {:induction false} ExecAllSignals(invoke: Invoke, fuel: nat, cs: seq<Code>, f: Frame)
    requires NoTagMiss(invoke)
    ensures ExecAll(invoke, fuel, cs, f).Err? ==> ExecAll(invoke, fuel, cs, f).error.Failed?
    decreases SizeAll(cs), 2
  {
    if |cs| > 0 {
      ExecSignals(invoke, fuel, cs[0], f, AnyV);
      ExecAllSignals(invoke, fuel, cs[1..], f);
    }
  }

  lemma {:induction false} ExecArgsSignals(invoke: Invoke, fuel: nat, cs: seq<Code>, f: Frame)
    requires NoTagMiss(invoke)
    ensures ExecArgs(invoke, fuel, cs, f).Err? ==>
      ExecArgs(invoke, fuel, cs, f).error.Stuck? || ExecArgs(invoke, fuel, cs, f).error.Failed?
    decreases SizeAll(cs), 2
  {
    if |cs| > 0 {
      ExecSignals(invoke, fuel, cs[0], f, Generic);
      ExecArgsSignals(invoke, fuel, cs[1..], f);
    }
  }

  lemma {:induction false} BranchSignals(invoke: Invoke, fuel: nat, ty: Type, cond: Code, thenNode: Code, elseNode: Code, f: Frame)
    requires NoTagMiss(invoke)
    ensures var r := Branch(invoke, fuel, ty, cond, thenNode, elseNode, f);
      r.Err? ==> r.error.Stuck? || r.error.Failed?
    decreases Size(cond) + Size(thenNode) + Size(elseNode), 2
  {
    ExecSignals(invoke, fuel, thenNode, f, AnyV);
    ExecSignals(invoke, fuel, elseNode, f, AnyV);
  }

  lemma {:induction false} CaptureEnvSignals(invoke: Invoke, fuel: nat, descriptor: Option<nat>, steps: seq<CaptureStep>, f: Frame)
    requires NoTagMiss(invoke)
    ensures CaptureEnv(invoke, fuel, descriptor, steps, f).Err? ==> CaptureEnv(invoke, fuel, descriptor, steps, f).error.Failed?
    decreases SizeSteps(steps), 3
  {
    if descriptor.Some? {
      BuildStepsSignals(invoke, fuel, steps, f, map[]);
    }
  }

  lemma {:induction false} BuildStepsSignals(invoke: Invoke, fuel: nat, steps: seq<CaptureStep>, f: Frame, slots: map<int, Value>)
    requires NoTagMiss(invoke)
    ensures BuildSteps(invoke, fuel, steps, f, slots).Err? ==> BuildSteps(invoke, fuel, steps, f, slots).error.Failed?
    decreases SizeSteps(steps), 2
  {
    if |steps| > 0 {
      assert SizeSteps(steps) == SizeStep(steps[0]) + SizeSteps(steps[1..]);
      ExecSignals(invoke, fuel, steps[0].rhs, f, AnyV);
      var o := Exec(invoke, fuel, steps[0].rhs, f, AnyV);
      if o.Done? {
        BuildStepsSignals(invoke, fuel, steps[1..], f, slots[steps[0].slot := o.value]);
      }
    }
  }

  /**
   * `executeAny` is `execute` with a stuck signal turned into the NeutralValue
   * it carries; every other outcome passes unchanged.
   */
  lemma {:induction false} AnyIsExecute(invoke: Invoke, fuel: nat, c: Code, f: Frame)
    ensures Exec(invoke, fuel, c, f, AnyV) == Expect(AnyV, Exec(invoke, fuel, c, f, Generic))
    decreases c
  {
    match c
    case Arg(index) =>
      if index < |f.arguments| && f.arguments[index].VNeutral? {
        RaiseGet(Raise(f.arguments[index]), f.arguments[index]);
      }
    case Ann(body, _) =>
      AnyIsExecute(invoke, fuel, body, f);
    case CallBuiltin(ty, builtin, args) =>
      var o :=
        (match ExecArgs(invoke, fuel, args, f)
         case Ok(vals) => Run(invoke, builtin, vals, fuel)
         case Err(o) => o);
      var w := if o.Stuck? then Stuck(ty, NCallBuiltin(builtin, o.term)) else o;
      assert Expect(Generic, w) == w;
    case _ =>
  }

  /**
   * The typed variants agree with `execute` when they are stuck or fail, and
   * `executeBoolean` and `executeClosure` also when they return a value.
   * (`executeInteger` of a big literal returns an Int where `execute` returns the BigInt.)
   */
  lemma {:induction false} TypedAgrees(invoke: Invoke, fuel: nat, c: Code, f: Frame, v: Variant)
    requires v == BooleanV || v == ClosureV || v == IntegerV
    requires var o := Exec(invoke, fuel, c, f, v);
      o.Stuck? || o.Failed? || (v != IntegerV && o.Done?)
    ensures Exec(invoke, fuel, c, f, v) == Exec(invoke, fuel, c, f, Generic)
    decreases c
  {
    match c
    case If(ty, cond, thenNode, elseNode) =>
      if v != ClosureV {
        match Branch(invoke, fuel, ty, cond, thenNode, elseNode, f)
        case Ok(b) =>
          TypedAgrees(invoke, fuel, if b then thenNode else elseNode, f, v);
        case Err(_) =>
      }
    case Ann(body, _) =>
      TypedAgrees(invoke, fuel, body, f, v);
    case _ =>
  }

  /** `App.executeRands` succeeds exactly when every operand's `executeAny` returns, and keeps their order. */
  lemma {:induction false} ExecAllPointwise(invoke: Invoke, fuel: nat, cs: seq<Code>, f: Frame, vals: seq<Value>)
    ensures ExecAll(invoke, fuel, cs, f) == Ok(vals) <==>
      (|vals| == |cs| && forall i :: 0 <= i < |cs| ==> Exec(invoke, fuel, cs[i], f, AnyV) == Done(vals[i]))
  {
    if |cs| > 0 && |vals| > 0 {
      ExecAllPointwise(invoke, fuel, cs[1..], f, vals[1..]);
      if |vals| == |cs| && forall i :: 0 <= i < |cs| ==> Exec(invoke, fuel, cs[i], f, AnyV) == Done(vals[i]) {
        assert forall i :: 0 <= i < |cs[1..]| ==> Exec(invoke, fuel, cs[1..][i], f, AnyV) == Done(vals[1..][i]) by {
          forall i | 0 <= i < |cs[1..]| ensures Exec(invoke, fuel, cs[1..][i], f, AnyV) == Done(vals[1..][i]) {
            assert cs[1..][i] == cs[i + 1] && vals[1..][i] == vals[i + 1];
          }
        }
        assert vals == [vals[0]] + vals[1..];
      }
      if ExecAll(invoke, fuel, cs, f) == Ok(vals) {
        forall i | 0 <= i < |cs| ensures Exec(invoke, fuel, cs[i], f, AnyV) == Done(vals[i]) {
          if i > 0 {
            assert cs[1..][i - 1] == cs[i] && vals[1..][i - 1] == vals[i];
          }
        }
      }
    } else if |cs| > 0 {
      if ExecAll(invoke, fuel, cs, f).Ok? {
        assert |ExecAll(invoke, fuel, cs, f).value| == |cs|;
      }
    }
  }

  /**
   * An application whose operator is a closure and whose operands all return:
   * fewer operands than the closure's arity build a PAP, exactly as many enter
   * the target with the env and the PAP's arguments in front, more enter it
   * with the first `arity` of them and apply its result to the rest.
   */
  lemma {:induction false} AppOfClosure(invoke: Invoke, fuel: nat, rator: Code, rands: seq<Code>, f: Frame, fn: Closure, vals: seq<Value>)
    requires Exec(invoke, fuel, rator, f, ClosureV) == Done(VClosure(fn))
    requires |vals| == |rands| && forall i :: 0 <= i < |rands| ==> Exec(invoke, fuel, rands[i], f, AnyV) == Done(vals[i])
    ensures var r := Exec(invoke, fuel, App(rator, rands), f, Generic);
      (|rands| < fn.arity ==> r == Done(VClosure(Pap(fn, vals))))
      && (|rands| == fn.arity ==> r == invoke(fn.target, EnvPrefix(fn) + fn.papArgs + vals))
      && (|rands| > fn.arity && fuel > 0 ==>
            r == ThenApply(invoke, invoke(fn.target, EnvPrefix(fn) + fn.papArgs + vals[..fn.arity]), vals[fn.arity..], fuel - 1))
  {
    ExecAllPointwise(invoke, fuel, rands, f, vals);
  }

  /** An application whose operator is stuck is stuck on NApp while the type has arrows left, and a ClassCast beyond them. */
  lemma {:induction false} AppOfStuck(invoke: Invoke, fuel: nat, rator: Code, rands: seq<Code>, f: Frame, t: Type, n: Neutral, vals: seq<Value>)
    requires Exec(invoke, fuel, rator, f, ClosureV) == Stuck(t, n)
    requires |vals| == |rands| && forall i :: 0 <= i < |rands| ==> Exec(invoke, fuel, rands[i], f, AnyV) == Done(vals[i])
    ensures var r := Exec(invoke, fuel, App(rator, rands), f, Generic);
      (|rands| <= Arity(t) ==> r.Stuck? && Some(r.ty) == Peel(t, |rands|) && r.term == NApply(n, vals))
      && (|rands| > Arity(t) ==> r == Failed(ClassCast))
  {
    ExecAllPointwise(invoke, fuel, rands, f, vals);
  }

  /** An operator that is neither a closure nor stuck panics. */
  lemma {:induction false} AppOfNonClosure(invoke: Invoke, fuel: nat, rator: Code, rands: seq<Code>, f: Frame)
    requires Exec(invoke, fuel, rator, f, ClosureV).Unexpected?
    ensures Exec(invoke, fuel, App(rator, rands), f, Generic) == Failed(Panic("closure expected"))
  {
  }

  /**
   * The exact-arity branch of `App.execute` as written: the target receives
   * only the operands, without the env and without the PAP's arguments.
   */
  function AppAsWritten(invoke: Invoke, fn: Closure, vals: seq<Value>, fuel: nat): (r: Outcome)
    ensures |vals| == fn.arity ==> r == invoke(fn.target, vals)
    ensures |vals| != fn.arity ==> r == Apply(invoke, fn, vals, fuel)
  {
    if |vals| == fn.arity then invoke(fn.target, vals) else Apply(invoke, fn, vals, fuel)
  }

  /** Without an env and PAP arguments the branch as written agrees with the calling convention. */
  lemma {:induction false} AppAsWrittenAgreesOnPlainClosures(invoke: Invoke, fn: Closure, vals: seq<Value>, fuel: nat)
    requires fn.env.None? && fn.papArgs == []
    ensures AppAsWritten(invoke, fn, vals, fuel) == Apply(invoke, fn, vals, fuel)
  {
    assert EnvPrefix(fn) + fn.papArgs + vals == vals;
  }

  /**
   * Applying a PAP of a two-argument body to its last argument: the branch as
   * written enters the body with one argument, the calling convention with both.
   */
  lemma {:induction false} AppAsWrittenCounterexample()
    ensures var body := Closure(None, [], 2, Arr(Nat, Arr(Nat, Nat)), ClosureBody(0, 2, false));
      var fn := Pap(body, [Int(1)]);
      var count: Invoke := (t, args) => Done(VOpaque(|args|));
      WellFormed(fn)
      && AppAsWritten(count, fn, [Int(2)], 0) == Done(VOpaque(1))
      && Apply(count, fn, [Int(2)], 0) == Done(VOpaque(2))
  {
    var body := Closure(None, [], 2, Arr(Nat, Arr(Nat, Nat)), ClosureBody(0, 2, false));
    var fn := Pap(body, [Int(1)]);
    assert fn.arity == 1 && fn.papArgs == [Int(1)];
    assert Arity(body.targetType) == 2;
  }

  /** A boolean condition selects a branch, evaluated with the same variant. */
  lemma {:induction false} IfSelects(invoke: Invoke, fuel: nat, ty: Type, cond: Code, thenNode: Code, elseNode: Code, f: Frame, v: Variant, b: bool)
    requires v == Generic || v == IntegerV || v == BooleanV
    requires Exec(invoke, fuel, cond, f, BooleanV) == Done(Boolean(b))
    ensures Exec(invoke, fuel, If(ty, cond, thenNode, elseNode), f, v)
         == Exec(invoke, fuel, if b then thenNode else elseNode, f, v)
  {
  }

  /** A condition that is not a boolean panics, whatever the variant. */
  lemma {:induction false} IfPanics(invoke: Invoke, fuel: nat, ty: Type, cond: Code, thenNode: Code, elseNode: Code, f: Frame, v: Variant)
    requires Exec(invoke, fuel, cond, f, BooleanV).Unexpected?
    ensures Exec(invoke, fuel, If(ty, cond, thenNode, elseNode), f, v) == Failed(Panic("non-boolean branch"))
  {
    assert Exec(invoke, fuel, If(ty, cond, thenNode, elseNode), f, Generic) == Failed(Panic("non-boolean branch"));
  }

  /**
   * A stuck condition makes the conditional stuck on NIf over both branches'
   * values at the conditional's own type; `executeAny` hands that back as a NeutralValue.
   */
  lemma {:induction false} IfStuck(invoke: Invoke, fuel: nat, ty: Type, cond: Code, thenNode: Code, elseNode: Code, f: Frame,
                t: Type, n: Neutral, tv: Value, ev: Value)
    requires Exec(invoke, fuel, cond, f, BooleanV) == Stuck(t, n)
    requires Exec(invoke, fuel, thenNode, f, AnyV) == Done(tv)
    requires Exec(invoke, fuel, elseNode, f, AnyV) == Done(ev)
    ensures Exec(invoke, fuel, If(ty, cond, thenNode, elseNode), f, Generic) == Stuck(ty, NIf(n, tv, ev))
    ensures Exec(invoke, fuel, If(ty, cond, thenNode, elseNode), f, AnyV) == Done(VNeutral(ty, NIf(n, tv, ev)))
  {
  }

  /** `Arg`: `executeAny` returns the argument as it is, `execute` raises a NeutralValue argument. */
  lemma {:induction false} ArgVariants(invoke: Invoke, fuel: nat, index: nat, f: Frame)
    ensures index >= |f.arguments| ==>
      forall v :: Exec(invoke, fuel, Arg(index), f, v) == Failed(AssertionFailed("insufficient arguments"))
    ensures index < |f.arguments| ==> Exec(invoke, fuel, Arg(index), f, AnyV) == Done(f.arguments[index])
    ensures index < |f.arguments| && f.arguments[index].VNeutral? ==>
      Exec(invoke, fuel, Arg(index), f, Generic) == Stuck(f.arguments[index].ty, f.arguments[index].term)
    ensures index < |f.arguments| && !f.arguments[index].VNeutral? ==>
      Exec(invoke, fuel, Arg(index), f, Generic) == Done(f.arguments[index])
  {
  }

  /** `executeUnit` of any node is its `execute` with the value discarded. */
  lemma {:induction false} UnitDiscards(invoke: Invoke, fuel: nat, c: Code, f: Frame)
    ensures Exec(invoke, fuel, c, f, UnitV) == Expect(UnitV, Exec(invoke, fuel, c, f, Generic))
  {
    match c
    case CallBuiltin(ty, builtin, args) =>
      var o :=
        (match ExecArgs(invoke, fuel, args, f)
         case Ok(vals) => Run(invoke, builtin, vals, fuel)
         case Err(o) => o);
      var w := if o.Stuck? then Stuck(ty, NCallBuiltin(builtin, o.term)) else o;
      assert Expect(Generic, w) == w;
    case _ =>
  }

  /** An annotation is transparent: every variant of `Ann(body, t)` is that variant of `body`. */
  lemma {:induction false} AnnTransparent(invoke: Invoke, fuel: nat, body: Code, t: Type, f: Frame, v: Variant)
    ensures Exec(invoke, fuel, Ann(body, t), f, v) == Exec(invoke, fuel, body, f, v)
  {
    if v == UnitV {
      UnitDiscards(invoke, fuel, body, f);
    }
  }

  /** Literals: `executeInteger` of a big literal succeeds exactly when it fits in an Int. */
  lemma {:induction false} Literals(invoke: Invoke, fuel: nat, f: Frame, n: BigInt, i: Int32, b: bool)
    ensures Exec(invoke, fuel, LitBigInt(n), f, IntegerV).Done? <==> FitsInInt(n)
    ensures FitsInInt(n) ==> Exec(invoke, fuel, LitBigInt(n), f, IntegerV) == Done(Int(n.value))
    ensures Exec(invoke, fuel, LitBigInt(n), f, AnyV) == Done(VPrim(PBig(n)))
    ensures Exec(invoke, fuel, LitInt(i), f, IntegerV) == Done(Int(i))
    ensures Exec(invoke, fuel, LitInt(i), f, BooleanV) == Unexpected(Int(i))
    ensures Exec(invoke, fuel, LitBool(b), f, BooleanV) == Done(Boolean(b))
    ensures Exec(invoke, fuel, LitBool(b), f, IntegerV) == Unexpected(Boolean(b))
  {
  }

  /** A builtin call that gets stuck is stuck on NCallBuiltin at the call's own type. */
  lemma {:induction false} CallBuiltinStuck(invoke: Invoke, fuel: nat, ty: Type, builtin: BuiltinId, args: seq<Code>, f: Frame)
    requires var o := ExecArgs(invoke, fuel, args, f);
      (o.Err? && o.error.Stuck?) || (o.Ok? && Run(invoke, builtin, o.value, fuel).Stuck?)
    ensures var o := ExecArgs(invoke, fuel, args, f);
      var term := if o.Err? then o.error.term else Run(invoke, builtin, o.value, fuel).term;
      Exec(invoke, fuel, CallBuiltin(ty, builtin, args), f, Generic) == Stuck(ty, NCallBuiltin(builtin, term))
      && Exec(invoke, fuel, CallBuiltin(ty, builtin, args), f, AnyV) == Done(VNeutral(ty, NCallBuiltin(builtin, term)))
  {
  }

  // ---------------------------------------------------------------------------
  // The `lam` factory
  // ---------------------------------------------------------------------------

  predicate IsSuperCombinator(target: Target)
  {
    target.ClosureBody? && target.superCombinator
  }

  /**
   * `Code.lam` as written: asserts a positive arity and that capture steps
   * come with super-combinators only, then gives the node a frame descriptor
   * exactly when there are NO capture steps.
   */
  function MakeLamAsWritten(descriptor: Option<nat>, freshId: nat, steps: seq<CaptureStep>, arity: int, target: Target, ty: Type): (r: Result<Code, Fault>)
    ensures r.Ok? <==> arity > 0 && ((|steps| > 0) == IsSuperCombinator(target))
    ensures r.Ok? ==> r.value.Lam? && (r.value.descriptor.Some? <==> |steps| == 0)
  {
    if arity <= 0 then Err(AssertionFailed("arity > 0"))
    else if (|steps| > 0) != IsSuperCombinator(target) then Err(AssertionFailed("mismatched calling convention"))
    else Ok(Lam(if |steps| > 0 then None else Some(descriptor.GetOr(freshId)), steps, arity as nat, target, ty))
  }

  /** `Code.lam` with the descriptor kept for the capturing case: the node gets a frame exactly when its body is a super-combinator. */
  function MakeLam(descriptor: Option<nat>, freshId: nat, steps: seq<CaptureStep>, arity: int, target: Target, ty: Type): (r: Result<Code, Fault>)
    ensures r.Ok? <==> arity > 0 && ((|steps| > 0) == IsSuperCombinator(target))
    ensures r.Ok? ==> (r.value.Lam? && r.value.captureSteps == steps && r.value.arity == arity
      && r.value.target == target && r.value.ty == ty
      && (r.value.descriptor.Some? <==> IsSuperCombinator(target)))
  {
    if arity <= 0 then Err(AssertionFailed("arity > 0"))
    else if (|steps| > 0) != IsSuperCombinator(target) then Err(AssertionFailed("mismatched calling convention"))
    else Ok(Lam(if |steps| > 0 then Some(descriptor.GetOr(freshId)) else None, steps, arity as nat, target, ty))
  }

  /**
   * A node from the factory builds well-formed closures: the env is present
   * exactly for super-combinators, as the closure invariant demands.
   */
  lemma {:induction false} MakeLamBuildsWellFormed(invoke: Invoke, fuel: nat, descriptor: Option<nat>, freshId: nat, steps: seq<CaptureStep>,
                                arity: int, target: Target, ty: Type, f: Frame)
    requires MakeLam(descriptor, freshId, steps, arity, target, ty).Ok?
    requires target.ClosureBody? ==> target.rootArity == arity
    requires arity <= Arity(ty)
    requires CaptureEnv(invoke, fuel, MakeLam(descriptor, freshId, steps, arity, target, ty).value.descriptor, steps, f).Ok?
    ensures var o := Exec(invoke, fuel, MakeLam(descriptor, freshId, steps, arity, target, ty).value, f, Generic);
      o.Done? && o.value.VClosure? && WellFormed(o.value.c) && o.value.c.papArgs == [] && o.value.c.arity == arity
  {
  }

  /** A plain (non-capturing) body gets a frame from the factory as written, so its closure carries an env it must not. */
  lemma {:induction false} MakeLamAsWrittenCounterexample(invoke: Invoke, fuel: nat, f: Frame)
    ensures var r := MakeLamAsWritten(None, 0, [], 1, ClosureBody(0, 1, false), Arr(Nat, Nat));
      r.Ok? && Exec(invoke, fuel, r.value, f, Generic).Done?
      && Exec(invoke, fuel, r.value, f, Generic).value.VClosure?
      && !WellFormed(Exec(invoke, fuel, r.value, f, Generic).value.c)
  {
  }
}

/**
 * The closure calling convention (src/cadenza/data/Closure.kt): exact,
 * under- and over-application, foreign `execute` with argument validation,
 * and the array helpers that lay out the argument vector.
 */
module Closures {
  import opened Wrappers
  import opened Types
  import opened Values
  import opened Nbe

  // ---------------------------------------------------------------------------
  // Array helpers (System.arraycopy into fresh arrays)
  // ---------------------------------------------------------------------------

  /** `System.arraycopy` between two distinct arrays. */
  method ArrayCopy(src: array<Value>, srcPos: nat, dst: array<Value>, dstPos: nat, len: nat)
    requires src != dst
    requires srcPos + len <= src.Length && dstPos + len <= dst.Length
    modifies dst
    ensures forall k :: 0 <= k < dst.Length ==>
      dst[k] == (if dstPos <= k < dstPos + len then src[srcPos + k - dstPos] else old(dst[k]))
  {
    var i := 0;
    while i < len
      invariant 0 <= i <= len
      invariant forall k :: 0 <= k < dst.Length ==>
        dst[k] == (if dstPos <= k < dstPos + i then src[srcPos + k - dstPos] else old(dst[k]))
    {
      dst[dstPos + i] := src[srcPos + i];
      i := i + 1;
    }
  }

  /** `appendL`: the first xsSize elements of xs followed by the first ysSize of ys. */
  method AppendL(xs: array<Value>, xsSize: nat, ys: array<Value>, ysSize: nat) returns (zs: array<Value>)
    requires xsSize <= xs.Length && ysSize <= ys.Length
    ensures fresh(zs)
    ensures zs.Length == xsSize + ysSize
    ensures zs[..] == xs[..xsSize] + ys[..ysSize]
  {
    zs := new Value[xsSize + ysSize](_ => VPrim(PNull));
    ArrayCopy(xs, 0, zs, 0, xsSize);
    ArrayCopy(ys, 0, zs, xsSize, ysSize);
    assert zs[..] == xs[..xsSize] + ys[..ysSize] by {
      assert forall k :: 0 <= k < zs.Length ==> zs[k] == (xs[..xsSize] + ys[..ysSize])[k];
    }
  }

  /** `append`: xs then ys. */
  method Append(xs: array<Value>, ys: array<Value>) returns (zs: array<Value>)
    ensures fresh(zs)
    ensures zs[..] == xs[..] + ys[..]
  {
    zs := AppendL(xs, xs.Length, ys, ys.Length);
    assert xs[..xs.Length] == xs[..] && ys[..ys.Length] == ys[..];
  }

  /** `consAppendL`: x at index 0, then the prefixes of xs and ys. */
  method ConsAppendL(x: Value, xs: array<Value>, xsSize: nat, ys: array<Value>, ysSize: nat) returns (zs: array<Value>)
    requires xsSize <= xs.Length && ysSize <= ys.Length
    ensures fresh(zs)
    ensures zs.Length == 1 + xsSize + ysSize
    ensures zs[..] == [x] + xs[..xsSize] + ys[..ysSize]
  {
    zs := new Value[1 + xsSize + ysSize](_ => VPrim(PNull));
    zs[0] := x;
    ArrayCopy(xs, 0, zs, 1, xsSize);
    ArrayCopy(ys, 0, zs, 1 + xsSize, ysSize);
    assert zs[..] == [x] + xs[..xsSize] + ys[..ysSize] by {
      assert forall k :: 0 <= k < zs.Length ==> zs[k] == ([x] + xs[..xsSize] + ys[..ysSize])[k];
    }
  }

  /** `consAppend`: x, then xs, then ys. */
  method ConsAppend(x: Value, xs: array<Value>, ys: array<Value>) returns (zs: array<Value>)
    ensures fresh(zs)
    ensures zs[..] == [x] + xs[..] + ys[..]
  {
    zs := ConsAppendL(x, xs, xs.Length, ys, ys.Length);
    assert xs[..xs.Length] == xs[..] && ys[..ys.Length] == ys[..];
  }

  /** `cons`: x followed by all of xs. */
  method Cons(x: Value, xs: array<Value>) returns (ys: array<Value>)
    ensures fresh(ys)
    ensures ys[..] == [x] + xs[..]
  {
    ys := new Value[xs.Length + 1](_ => VPrim(PNull));
    ys[0] := x;
    ArrayCopy(xs, 0, ys, 1, xs.Length);
    assert ys[..] == [x] + xs[..] by {
      assert forall k :: 0 <= k < ys.Length ==> ys[k] == ([x] + xs[..])[k];
    }
  }

  /** `consTake`: x followed by the first n elements of xs. */
  method ConsTake(x: Value, n: nat, xs: array<Value>) returns (ys: array<Value>)
    requires n <= xs.Length
    ensures fresh(ys)
    ensures ys[..] == [x] + xs[..n]
  {
    ys := new Value[n + 1](_ => VPrim(PNull));
    ys[0] := x;
    ArrayCopy(xs, 0, ys, 1, n);
    assert ys[..] == [x] + xs[..n] by {
      assert forall k :: 0 <= k < ys.Length ==> ys[k] == ([x] + xs[..n])[k];
    }
  }

  /** `drop`: xs without its first k elements. */
  method Drop(k: nat, xs: array<Value>) returns (ys: array<Value>)
    requires k <= xs.Length
    ensures fresh(ys)
    ensures ys[..] == xs[k..]
  {
    ys := new Value[xs.Length - k](_ => VPrim(PNull));
    ArrayCopy(xs, k, ys, 0, xs.Length - k);
    assert ys[..] == xs[k..] by {
      assert forall i :: 0 <= i < ys.Length ==> ys[i] == xs[k..][i];
    }
  }

  // ---------------------------------------------------------------------------
  // Closures
  // ---------------------------------------------------------------------------

  /** The construction-time assertions of a closure. */
  predicate WellFormed(c: Closure)
  {
    (c.target.ClosureBody? ==>
      (c.env.Some? <==> c.target.superCombinator) && c.arity + |c.papArgs| == c.target.rootArity)
    && (!c.target.ClosureBody? ==> c.env.None?)
    && c.arity <= Arity(c.targetType) - |c.papArgs|
  }

  /** The environment, when present, is passed as the first argument. */
  function EnvPrefix(c: Closure): (r: seq<Value>)
    ensures |r| <= 1
    ensures c.env.Some? <==> |r| == 1
    ensures c.env.Some? ==> r[0] == VFrame(c.env.value)
  {
    if c.env.Some? then [VFrame(c.env.value)] else []
  }

  /** What a call decides to do: build a PAP, enter the target, or enter it and apply its result to the rest. */
  datatype CallStep =
    | MakePap(pap: Closure)
    | Enter(target: Target, args: seq<Value>)
    | EnterThenApply(target: Target, args: seq<Value>, rest: seq<Value>)

  /**
   * `pap`: the same env, target and target type, more partial arguments and a
   * lower arity; a PAP of a well-formed closure is well-formed.
   */
  function Pap(c: Closure, ys: seq<Value>): (p: Closure)
    requires |ys| <= c.arity
    ensures WellFormed(c) ==> WellFormed(p)
    ensures p.env == c.env && p.target == c.target && p.targetType == c.targetType
    ensures p.papArgs == c.papArgs + ys && p.arity == c.arity - |ys|
  {
    Closure(c.env, c.papArgs + ys, c.arity - |ys|, c.targetType, c.target)
  }

  /** The type of a PAP is the closure's type with |ys| more arrows removed (`type` of Closure.kt). */
  lemma {:induction false} PapType(c: Closure, ys: seq<Value>, t: Type)
    requires |ys| <= c.arity && ClosureType(c) == Some(t)
    ensures ClosureType(Pap(c, ys)) == Peel(t, |ys|)
  {
    var p := Pap(c, ys);
    var n := |c.papArgs|;
    var m := |ys|;
    assert |p.papArgs| == n + m;
    PeelAdd(c.targetType, n, m);
    assert Peel(c.targetType, n + m) == Peel(t, m);
    assert ClosureType(p) == Peel(p.targetType, |p.papArgs|);
  }

  /** `Closure.call` as written: on over-application only `arity` elements of papArgs ++ ys are passed. */
  function CallAsWritten(c: Closure, ys: seq<Value>): (r: CallStep)
    ensures |ys| < c.arity <==> r.MakePap?
    ensures |ys| == c.arity <==> r.Enter?
    ensures r.EnterThenApply? ==> |r.args| == |EnvPrefix(c)| + c.arity
    ensures r.MakePap? ==> r.pap == Pap(c, ys)
    ensures r.Enter? ==> r.target == c.target && r.args == EnvPrefix(c) + c.papArgs + ys
    ensures r.EnterThenApply? ==>
      (r.target == c.target && r.args == EnvPrefix(c) + (c.papArgs + ys)[..c.arity]
       && r.rest == (c.papArgs + ys)[c.arity..])
  {
    if |ys| < c.arity then MakePap(Pap(c, ys))
    else if |ys| == c.arity then Enter(c.target, EnvPrefix(c) + c.papArgs + ys)
    else
      var zs := c.papArgs + ys;
      EnterThenApply(c.target, EnvPrefix(c) + zs[..c.arity], zs[c.arity..])
  }

  /**
   * `callDirectWith`: the same three-way rule as `call` through a direct call
   * node whose target is `nodeTarget`.
   */
  function CallDirectWith(c: Closure, nodeTarget: Target, ys: seq<Value>): (r: CallStep)
    ensures nodeTarget == c.target ==> r == CallAsWritten(c, ys)
  {
    if |ys| < c.arity then MakePap(Pap(c, ys))
    else if |ys| == c.arity then Enter(nodeTarget, EnvPrefix(c) + c.papArgs + ys)
    else
      var zs := c.papArgs + ys;
      EnterThenApply(nodeTarget, EnvPrefix(c) + zs[..c.arity], zs[c.arity..])
  }

  /**
   * The call rule with over-application passing all of papArgs and the first
   * `arity` new arguments, so the target always receives its full arity.
   */
  function Call(c: Closure, ys: seq<Value>): (r: CallStep)
    ensures |ys| < c.arity <==> r.MakePap?
    ensures |ys| == c.arity <==> r.Enter?
    ensures r.MakePap? ==> r.pap == Pap(c, ys)
    ensures r.Enter? ==> r.target == c.target && r.args == EnvPrefix(c) + c.papArgs + ys
    ensures r.EnterThenApply? ==>
      (r.target == c.target && r.args == EnvPrefix(c) + c.papArgs + ys[..c.arity] && r.rest == ys[c.arity..])
  {
    if |ys| < c.arity then MakePap(Pap(c, ys))
    else if |ys| == c.arity then Enter(c.target, EnvPrefix(c) + c.papArgs + ys)
    else EnterThenApply(c.target, EnvPrefix(c) + c.papArgs + ys[..c.arity], ys[c.arity..])
  }

  /**
   * A saturating call of a well-formed closure over a closure body passes the
   * env exactly when the body is a super-combinator, then exactly the body's
   * arity in arguments: papArgs followed by the new ones, in order.
   */
  lemma {:induction false} CallLaysOutRootArguments(c: Closure, ys: seq<Value>)
    requires WellFormed(c) && c.target.ClosureBody? && |ys| >= c.arity
    ensures var r := Call(c, ys);
      !r.MakePap?
      && (|EnvPrefix(c)| == 1 <==> c.target.superCombinator)
      && |r.args| == |EnvPrefix(c)| + c.target.rootArity
      && r.args[|EnvPrefix(c)|..] + (if r.EnterThenApply? then r.rest else []) == c.papArgs + ys
  {
    var r := Call(c, ys);
    var e := EnvPrefix(c);
    if r.EnterThenApply? {
      AfterPrefix(e, c.papArgs, ys, c.arity);
    } else {
      AfterPrefix(e, c.papArgs, ys, |ys|);
    }
  }

  /** Dropping the env slot from the laid-out arguments leaves the PAP's arguments and the first `k` new ones. */
  lemma {:induction false} AfterPrefix<T>(e: seq<T>, held: seq<T>, ys: seq<T>, k: nat)
    requires k <= |ys|
    ensures (e + held + ys[..k])[|e|..] == held + ys[..k]
    ensures held + ys[..k] + ys[k..] == held + ys
  {
    assert e + held + ys[..k] == e + (held + ys[..k]);
    assert ys[..k] + ys[k..] == ys;
  }

  /** The two call rules differ only when a closure that holds PAP arguments is over-applied. */
  lemma {:induction false} CallAgreesWithAsWritten(c: Closure, ys: seq<Value>)
    ensures |ys| <= c.arity || c.papArgs == [] ==> Call(c, ys) == CallAsWritten(c, ys)
  {
    if |ys| > c.arity && c.papArgs == [] {
      assert c.papArgs + ys == ys;
      assert EnvPrefix(c) + c.papArgs + ys[..c.arity] == EnvPrefix(c) + ys[..c.arity];
    }
  }

  /** The as-written rule hands a closure body too few arguments once a PAP is over-applied. */
  lemma {:induction false} CallAsWrittenCounterexample()
    ensures var c := Closure(None, [], 2, Arr(Nat, Arr(Nat, Nat)), ClosureBody(0, 2, false));
      var p := Pap(c, [Int(1)]);
      WellFormed(p)
      && CallAsWritten(p, [Int(2), Int(3)]) == EnterThenApply(c.target, [Int(1)], [Int(2), Int(3)])
      && |CallAsWritten(p, [Int(2), Int(3)]).args| < c.target.rootArity
      && Call(p, [Int(2), Int(3)]) == EnterThenApply(c.target, [Int(1), Int(2)], [Int(3)])
  {
    var c := Closure(None, [], 2, Arr(Nat, Arr(Nat, Nat)), ClosureBody(0, 2, false));
    var p := Pap(c, [Int(1)]);
    assert ([Int(1)] + [Int(2), Int(3)])[..1] == [Int(1)];
    assert ([Int(1)] + [Int(2), Int(3)])[1..] == [Int(2), Int(3)];
    assert [Int(2), Int(3)][..1] == [Int(2)];
    assert [Int(2), Int(3)][1..] == [Int(3)];
  }

  /** Partial application composes: a PAP applied to more arguments is the closure applied to all of them. */
  lemma {:induction false} PapThenCall(c: Closure, a: seq<Value>, b: seq<Value>)
    requires |a| < c.arity
    ensures Call(Pap(c, a), b) == Call(c, a + b)
  {
    var p := Pap(c, a);
    if |b| < p.arity {
      assert c.papArgs + a + b == c.papArgs + (a + b);
    } else if |b| == p.arity {
      assert EnvPrefix(c) + (c.papArgs + a) + b == EnvPrefix(c) + c.papArgs + (a + b);
    } else {
      assert (a + b)[..c.arity] == a + b[..p.arity];
      assert (a + b)[c.arity..] == b[p.arity..];
      assert EnvPrefix(c) + (c.papArgs + a) + b[..p.arity] == EnvPrefix(c) + c.papArgs + (a + b)[..c.arity];
    }
  }

  // ---------------------------------------------------------------------------
  // Foreign execution
  // ---------------------------------------------------------------------------

  /** The fold in `execute`: validate each argument against the successive arrow argument types. */
  function ValidateArgs(t: Type, args: seq<Value>): (r: Result<Type, Fault>)
    requires |args| <= Arity(t)
    ensures r.Ok? <==> forall k :: 0 <= k < |args| ==> Validate(ArgumentAt(t, k).value, args[k]).Ok?
    ensures r.Ok? ==> Some(r.value) == Peel(t, |args|)
    decreases |args|
  {
    if |args| == 0 then Ok(t)
    else match Validate(t.argument, args[0])
      case Err(e) =>
        assert ArgumentAt(t, 0) == Some(t.argument);
        Err(e)
      case Ok(_) =>
        var rest := args[1..];
        var r := ValidateArgs(t.result, rest);
        assert forall k :: 1 <= k < |args| ==> ArgumentAt(t, k) == ArgumentAt(t.result, k - 1);
        assert forall k :: 1 <= k < |args| ==> args[k] == rest[k - 1];
        var m := |rest|;
        assert |args| == m + 1;
        assert Peel(t, m + 1) == Peel(t.result, m);
        r
  }

  /** The fold in `execute` as written: arrow parameters go through `Arr.validate` as written. */
  function ValidateArgsAsWritten(t: Type, args: seq<Value>): (r: Result<Type, Fault>)
    requires |args| <= Arity(t)
    ensures r.Ok? <==> forall k :: 0 <= k < |args| ==> ValidateAsWritten(ArgumentAt(t, k).value, args[k]).Ok?
    ensures r.Ok? ==> Some(r.value) == Peel(t, |args|)
    decreases |args|
  {
    if |args| == 0 then Ok(t)
    else match ValidateAsWritten(t.argument, args[0])
      case Err(e) =>
        assert ArgumentAt(t, 0) == Some(t.argument);
        Err(e)
      case Ok(_) =>
        var rest := args[1..];
        var r := ValidateArgsAsWritten(t.result, rest);
        assert forall k :: 1 <= k < |args| ==> ArgumentAt(t, k) == ArgumentAt(t.result, k - 1);
        assert forall k :: 1 <= k < |args| ==> args[k] == rest[k - 1];
        var m := |rest|;
        assert |args| == m + 1;
        assert Peel(t, m + 1) == Peel(t.result, m);
        r
  }

  /** Without arrow parameters the two folds accept the same arguments. */
  lemma {:induction false} ValidateArgsAgreeOffArrows(t: Type, args: seq<Value>)
    requires |args| <= Arity(t)
    requires forall k :: 0 <= k < |args| ==> !ArgumentAt(t, k).value.Arr?
    ensures ValidateArgs(t, args).Ok? <==> ValidateArgsAsWritten(t, args).Ok?
  {
    forall k | 0 <= k < |args|
      ensures ValidateAsWritten(ArgumentAt(t, k).value, args[k]) == Validate(ArgumentAt(t, k).value, args[k])
    {
    }
  }

  /**
   * `f : (Nat -> Nat) -> Nat` executed with the identity on Nat: the corrected
   * fold lets it through, the fold as written refuses it as a wrong closure type.
   */
  lemma {:induction false} ExecuteAcceptsWhatSourceRefuses()
    ensures var id := Closure(None, [], 1, Arr(Nat, Nat), ClosureBody(0, 1, false));
      var f := Closure(None, [], 1, Arr(Arr(Nat, Nat), Nat), ClosureBody(1, 1, false));
      WellFormed(f) && Execute(f, [VClosure(id)]).Ok?
      && ValidateArgsAsWritten(Arr(Arr(Nat, Nat), Nat), [VClosure(id)])
        == Err(UnsupportedType("wrong closure type"))
  {
    var id := Closure(None, [], 1, Arr(Nat, Nat), ClosureBody(0, 1, false));
    var f := Closure(None, [], 1, Arr(Arr(Nat, Nat), Nat), ClosureBody(1, 1, false));
    assert ArgumentAt(Arr(Arr(Nat, Nat), Nat), 0) == Some(Arr(Nat, Nat));
    assert Validate(Arr(Nat, Nat), VClosure(id)).Ok?;
    assert Arr(Nat, Nat) < Arr(Arr(Nat, Nat), Nat);
  }

  /**
   * Interop `execute`: more arguments than the closure type's arity is
   * ArityException(maxArity, len); otherwise every argument must validate, and
   * then the call proceeds, by the corrected rule. The call as written gives
   * the same step unless a PAP is over-applied.
   */
  function Execute(c: Closure, args: seq<Value>): (r: Result<CallStep, Fault>)
    requires WellFormed(c)
    ensures ClosureType(c).None? ==> r == Err(ClassCast)
    ensures ClosureType(c).Some? && |args| > Arity(ClosureType(c).value) ==>
      r == Err(ArityError(Arity(ClosureType(c).value), |args|))
    ensures r.Ok? <==> (ClosureType(c).Some? && |args| <= Arity(ClosureType(c).value)
      && forall k :: 0 <= k < |args| ==> Validate(ArgumentAt(ClosureType(c).value, k).value, args[k]).Ok?)
    ensures r.Ok? ==> r.value == Call(c, args)
    ensures r.Ok? && (|args| <= c.arity || c.papArgs == []) ==> r.value == CallAsWritten(c, args)
  {
    CallAgreesWithAsWritten(c, args);
    match ClosureType(c)
    case None => Err(ClassCast)
    case Some(t) =>
      if |args| > Arity(t) then Err(ArityError(Arity(t), |args|))
      else match ValidateArgs(t, args)
        case Err(e) => Err(e)
        case Ok(_) => Ok(Call(c, args))
  }

  // ---------------------------------------------------------------------------
  // Running a call against the call targets
  // ---------------------------------------------------------------------------

  /** Calling a target with an argument vector; the target bodies are outside this model. */
  type Invoke = (Target, seq<Value>) -> Outcome

  /** Apply the value a target returned to the leftover arguments; it must be a closure. */
  function ThenApply(invoke: Invoke, o: Outcome, rest: seq<Value>, fuel: nat): Outcome
    decreases fuel, 1
  {
    match o
    case Done(VClosure(g)) => Apply(invoke, g, rest, fuel)
    case Done(_) => Failed(ClassCast)
    case _ => o
  }

  /**
   * A whole call: a PAP, one target invocation, or one invocation followed by
   * applying its result to the rest. `fuel` bounds the over-application chain.
   */
  function Apply(invoke: Invoke, c: Closure, ys: seq<Value>, fuel: nat): (r: Outcome)
    ensures |ys| < c.arity ==> r == Done(VClosure(Pap(c, ys)))
    ensures |ys| == c.arity ==> r == invoke(c.target, EnvPrefix(c) + c.papArgs + ys)
    decreases fuel, 0
  {
    match Call(c, ys)
    case MakePap(p) => Done(VClosure(p))
    case Enter(t, args) => invoke(t, args)
    case EnterThenApply(t, args, rest) =>
      if fuel == 0 then Failed(OutOfFuel)
      else ThenApply(invoke, invoke(t, args), rest, fuel - 1)
  }

  /** Over-application is the exact application to the first `arity` arguments, then applying its result to the rest. */
  lemma {:induction false} OverApplication(invoke: Invoke, c: Closure, ys: seq<Value>, fuel: nat)
    requires |ys| > c.arity && fuel > 0
    ensures Apply(invoke, c, ys, fuel)
         == ThenApply(invoke, Apply(invoke, c, ys[..c.arity], 0), ys[c.arity..], fuel - 1)
  {
    assert |ys[..c.arity]| == c.arity;
  }

  /** Partial application composes for whole calls too. */
  lemma {:induction false} ApplyPap(invoke: Invoke, c: Closure, a: seq<Value>, b: seq<Value>, fuel: nat)
    requires |a| < c.arity
    ensures Apply(invoke, Pap(c, a), b, fuel) == Apply(invoke, c, a + b, fuel)
  {
    PapThenCall(c, a, b);
  }

  /** Call targets return values, raise stuck signals or fail; they never leak a tag miss. */
  ghost predicate NoTagMiss(invoke: Invoke)
  {
    forall t, args :: !invoke(t, args).Unexpected?
  }

  /** A whole call leaks no tag miss when the targets do not. */
  lemma {:induction false} ApplyNoTagMiss(invoke: Invoke, c: Closure, ys: seq<Value>, fuel: nat)
    requires NoTagMiss(invoke)
    ensures !Apply(invoke, c, ys, fuel).Unexpected?
    decreases fuel
  {
    match Call(c, ys)
    case MakePap(_) =>
    case Enter(t, args) =>
    case EnterThenApply(t, args, rest) =>
      if fuel > 0 {
        var o := invoke(t, args);
        if o.Done? && o.value.VClosure? {
          ApplyNoTagMiss(invoke, o.value.c, rest, fuel - 1);
        }
      }
  }
}

/**
 * The reference interpreter (src/cadenza/interpreter.kt): a de Bruijn
 * indexed core, elaborated from terms and evaluated by a direct recursive
 * evaluator, kept to compare the Truffle tree against.
 *
 * Bound variables sit at the start of the environment: in the body of an
 * n-ary lambda, Var(i) for i < n is the i-th argument and Var(n + j) is the
 * j-th captured value. Calls are curried in the usual way: too few
 * arguments make a partial application, too many call the result of the
 * exact call with the rest.
 *
 * The evaluator does not terminate on every program (fixNatF recurses), so
 * evaluation carries a fuel bound; every closure body and builtin entered
 * costs one unit, and running out is the fault OutOfFuel.
 */
module Interpreter {
  import opened Wrappers
  import opened Types
  import opened Values
  import opened Envs
  import opened Builtins
  import Terms

  // ---------------------------------------------------------------------------
  // The core and its values
  // ---------------------------------------------------------------------------

  datatype Expr =
    | Lam(n: nat, b: Expr, captures: seq<int>)
    | Var(ix: int)
    | App(f: Expr, args: seq<Expr>)
    | If(cond: Expr, thenE: Expr, elseE: Expr)
    | Const(x: IValue)

  /** What a BuiltinClosure runs: a builtin of the initial context, or the fixpoint step `FixNatF1(f)`. */
  datatype Op = Builtin(id: BuiltinId) | Fix1(f: IValue)

  /**
   * Runtime values. A closure keeps the arguments it has received so far
   * (`pap`) apart from its captured environment, so that a later call
   * can put them before the new ones.
   */
  datatype IValue =
    | IPrim(p: Prim)
    | IClosure(n: nat, body: Expr, env: seq<IValue>, pap: seq<IValue>)
    | IBuiltin(op: Op, papArgs: seq<IValue>)

  /** `Callable`: what `call` accepts. */
  predicate IsCallable(v: IValue)
  {
    v.IClosure? || v.IBuiltin?
  }

  function OpArity(op: Op): nat
  {
    match op
    case Builtin(b) => BuiltinArity(b)
    case Fix1(_) => 1
  }

  /** A builtin's view of an interpreter value: primitives as themselves, anything else as an opaque object. */
  function Lower(v: IValue): Value
  {
    if v.IPrim? then VPrim(v.p) else VOpaque(0)
  }

  function Size(e: Expr): (s: nat)
    ensures s >= 1
  {
    match e
    case Lam(_, b, _) => 1 + Size(b)
    case Var(_) => 1
    case App(f, args) => 1 + Size(f) + SizeAll(args)
    case If(c, t, f) => 1 + Size(c) + Size(t) + Size(f)
    case Const(_) => 1
  }

  function SizeAll(es: seq<Expr>): nat
  {
    if |es| == 0 then 0 else Size(es[0]) + SizeAll(es[1..])
  }

  // ---------------------------------------------------------------------------
  // Evaluation
  // ---------------------------------------------------------------------------

  /** The captured values `map(captures) { env[it] }`; an index outside the environment fails. */
  function Captures(env: seq<IValue>, caps: seq<int>): (r: Result<seq<IValue>, Fault>)
    ensures r.Ok? <==> forall i :: 0 <= i < |caps| ==> 0 <= caps[i] < |env|
    ensures r.Err? ==> r.error == IndexOutOfBounds
    ensures r.Ok? ==> |r.value| == |caps| && forall i :: 0 <= i < |caps| ==> r.value[i] == env[caps[i]]
  {
    if |caps| == 0 then Ok([])
    else if !(0 <= caps[0] < |env|) then Err(IndexOutOfBounds)
    else
      match Captures(env, caps[1..])
      case Err(err) => Err(err)
      case Ok(rest) => Ok([env[caps[0]]] + rest)
  }

  /** `Expr.eval`. */
  function Eval(fuel: nat, e: Expr, env: seq<IValue>): Result<IValue, Fault>
    decreases fuel, 3, Size(e), 0
  {
    match e
    case Lam(n, b, caps) =>
      (match Captures(env, caps)
       case Err(err) => Err(err)
       case Ok(captured) => Ok(IClosure(n, b, captured, [])))
    case Var(i) => if 0 <= i < |env| then Ok(env[i]) else Err(IndexOutOfBounds)
    case App(f, args) =>
      (match Eval(fuel, f, env)
       case Err(err) => Err(err)
       case Ok(fv) =>
         match EvalAll(fuel, args, env)
         case Err(err) => Err(err)
         case Ok(vs) => CallValue(fuel, fv, vs))
    case If(c, t, f) =>
      (match Eval(fuel, c, env)
       case Err(err) => Err(err)
       case Ok(cv) =>
         if cv == IPrim(PBool(true)) then Eval(fuel, t, env)
         else if cv == IPrim(PBool(false)) then Eval(fuel, f, env)
         else Err(ClassCast))
    case Const(x) => Ok(x)
  }

  /** The arguments of an application, evaluated left to right; the first failure wins. */
  function EvalAll(fuel: nat, es: seq<Expr>, env: seq<IValue>): Result<seq<IValue>, Fault>
    decreases fuel, 3, SizeAll(es), 1
  {
    if |es| == 0 then Ok([])
    else
      match Eval(fuel, es[0], env)
      case Err(err) => Err(err)
      case Ok(v) =>
        match EvalAll(fuel, es[1..], env)
        case Err(err) => Err(err)
        case Ok(vs) => Ok([v] + vs)
  }

  /** A closure given fewer arguments than it needs: the same body, waiting for the rest. */
  function Pap(c: IValue, args: seq<IValue>): (r: IValue)
    requires c.IClosure? && |args| < c.n
    ensures r.IClosure? && r.n + |args| == c.n
  {
    IClosure(c.n - |args|, c.body, c.env, c.pap + args)
  }

  /**
   * `call` and `Callable.call`: a closure runs its body on its arguments
   * followed by its environment; a builtin closure collects arguments
   * until it has its arity, then runs the builtin.
   */
  function CallValue(fuel: nat, fn: IValue, args: seq<IValue>): Result<IValue, Fault>
    decreases fuel, 1
  {
    match fn
    case IPrim(_) => Err(Panic("attempt to call"))
    case IClosure(n, b, env, pap) =>
      if |args| < n then Ok(Pap(fn, args))
      else if fuel == 0 then Err(OutOfFuel)
      else if |args| == n then Eval(fuel - 1, b, pap + args + env)
      else
        (match Eval(fuel - 1, b, pap + args[..n] + env)
         case Err(err) => Err(err)
         case Ok(g) => CallValue(fuel - 1, g, args[n..]))
    case IBuiltin(op, papArgs) =>
      var ys := papArgs + args;
      if |ys| < OpArity(op) then Ok(IBuiltin(op, ys))
      else if fuel == 0 then Err(OutOfFuel)
      else if |ys| == OpArity(op) then CallBuiltin(fuel - 1, op, ys)
      else
        (match CallBuiltin(fuel - 1, op, ys[..OpArity(op)])
         case Err(err) => Err(err)
         case Ok(g) => CallValue(fuel - 1, g, ys[OpArity(op)..]))
  }

  /**
   * `callBuiltin` and `FixNatF1.execute`: fixNatF calls its function with the
   * fixpoint step and the argument; the arithmetic builtins run on the
   * primitive arguments and refuse anything else.
   */
  function CallBuiltin(fuel: nat, op: Op, ys: seq<IValue>): Result<IValue, Fault>
    requires |ys| == OpArity(op)
    decreases fuel, 2
  {
    match op
    case Fix1(f) => CallValue(fuel, f, [IBuiltin(Fix1(f), []), ys[0]])
    case Builtin(b) =>
      match b
      case FixNatF =>
        if IsCallable(ys[0]) then CallValue(fuel, ys[0], [IBuiltin(Fix1(ys[0]), []), ys[1]])
        else Err(ClassCast)
      case PrintId => Ok(ys[0])
      case FixNatF1(_) => Err(UnsupportedSpecialization)
      case _ =>
        match Binary(b, Lower(ys[0]), Lower(ys[1]))
        case Ok(v) => Ok(IPrim(v.p))
        case Err(err) => Err(err)
  }

  /** The as-written partial application: the new arguments go in front of the captured environment. */
  function PapAsWritten(c: IValue, args: seq<IValue>): (r: IValue)
    requires c.IClosure? && |args| < c.n
    ensures r.IClosure? && r.n + |args| == c.n && r.pap == []
  {
    IClosure(c.n - |args|, c.body, args + c.env, [])
  }

  // ---------------------------------------------------------------------------
  // Properties of evaluation
  // ---------------------------------------------------------------------------

  /** The arguments evaluate exactly when each of them does, to their values in order. */
  lemma {:induction false} EvalAllPointwise(fuel: nat, es: seq<Expr>, env: seq<IValue>)
    ensures EvalAll(fuel, es, env).Ok? <==> forall i :: 0 <= i < |es| ==> Eval(fuel, es[i], env).Ok?
    ensures EvalAll(fuel, es, env).Ok? ==>
      |EvalAll(fuel, es, env).value| == |es| &&
      forall i :: 0 <= i < |es| ==> EvalAll(fuel, es, env).value[i] == Eval(fuel, es[i], env).value
    decreases |es|
  {
    if |es| > 0 {
      EvalAllPointwise(fuel, es[1..], env);
      assert forall i :: 1 <= i < |es| ==> es[i] == es[1..][i - 1];
    }
  }

  /** `If` runs exactly one branch, chosen by a boolean condition; anything else is a cast failure. */
  lemma {:induction false} EvalIf(fuel: nat, c: Expr, t: Expr, f: Expr, env: seq<IValue>)
    ensures Eval(fuel, c, env) == Ok(IPrim(PBool(true))) ==> Eval(fuel, If(c, t, f), env) == Eval(fuel, t, env)
    ensures Eval(fuel, c, env) == Ok(IPrim(PBool(false))) ==> Eval(fuel, If(c, t, f), env) == Eval(fuel, f, env)
    ensures Eval(fuel, c, env).Ok? && !Eval(fuel, c, env).value.IPrim? ==> Eval(fuel, If(c, t, f), env) == Err(ClassCast)
  {
  }

  /** A lambda evaluates to a closure over the captured values, with nothing applied yet. */
  lemma {:induction false} EvalLam(fuel: nat, n: nat, b: Expr, caps: seq<int>, env: seq<IValue>)
    requires forall i :: 0 <= i < |caps| ==> 0 <= caps[i] < |env|
    ensures var v := Eval(fuel, Lam(n, b, caps), env);
      v.Ok? && v.value.IClosure? && v.value.n == n && v.value.pap == [] &&
      |v.value.env| == |caps| && forall i :: 0 <= i < |caps| ==> v.value.env[i] == env[caps[i]]
  {
  }

  /**
   * Applying a partial application to more arguments is the same as
   * applying the closure to all of them at once: argument order is kept.
   */
  lemma {:induction false} PapThenCall(fuel: nat, c: IValue, a: seq<IValue>, b: seq<IValue>)
    requires c.IClosure? && |a| < c.n
    ensures CallValue(fuel, Pap(c, a), b) == CallValue(fuel, c, a + b)
  {
    var n := c.n;
    var ab := a + b;
    if |ab| < n {
      assert c.pap + a + b == c.pap + ab;
    } else if fuel > 0 && |ab| == n {
      assert c.pap + a + b + c.env == c.pap + ab + c.env;
    } else if fuel > 0 {
      assert b[..n - |a|] == ab[|a|..n];
      assert c.pap + a + b[..n - |a|] + c.env == c.pap + ab[..n] + c.env;
      assert b[n - |a|..] == ab[n..];
    }
  }

  /** A builtin closure given too few arguments keeps them, and adding more later is one call with all of them. */
  lemma {:induction false} BuiltinPapThenCall(fuel: nat, op: Op, p: seq<IValue>, a: seq<IValue>, b: seq<IValue>)
    requires |p + a| < OpArity(op)
    ensures CallValue(fuel, IBuiltin(op, p), a) == Ok(IBuiltin(op, p + a))
    ensures CallValue(fuel, IBuiltin(op, p + a), b) == CallValue(fuel, IBuiltin(op, p), a + b)
  {
    assert p + a + b == p + (a + b);
  }

  /** Over-application calls the result of the exact application with the remaining arguments. */
  lemma {:induction false} OverApplication(fuel: nat, c: IValue, args: seq<IValue>)
    requires c.IClosure? && |args| > c.n && fuel > 0
    ensures CallValue(fuel, c, args) ==
      match CallValue(fuel, c, args[..c.n])
      case Err(err) => Err(err)
      case Ok(g) => CallValue(fuel - 1, g, args[c.n..])
  {
    assert args[..c.n][..c.n] == args[..c.n];
  }

  /** The same for builtin closures, once the collected arguments exceed the arity. */
  lemma {:induction false} BuiltinOverApplication(fuel: nat, op: Op, p: seq<IValue>, args: seq<IValue>)
    requires |p + args| > OpArity(op) && fuel > 0
    ensures var k := OpArity(op);
      CallValue(fuel, IBuiltin(op, p), args) ==
      match CallBuiltin(fuel - 1, op, (p + args)[..k])
      case Err(err) => Err(err)
      case Ok(g) => CallValue(fuel - 1, g, (p + args)[k..])
  {
  }

  /**
   * fixNatF is a fixpoint combinator: `fixNatF f x` calls `f` with the
   * step `fix f` and `x`, and the step applied to `y` does the same with `y`.
   */
  lemma {:induction false} FixUnfolds(fuel: nat, f: IValue, x: IValue, y: IValue)
    requires IsCallable(f) && fuel > 0
    ensures CallValue(fuel, IBuiltin(Builtin(FixNatF), []), [f, x]) ==
      CallValue(fuel - 1, f, [IBuiltin(Fix1(f), []), x])
    ensures CallValue(fuel, IBuiltin(Fix1(f), []), [y]) ==
      CallValue(fuel - 1, f, [IBuiltin(Fix1(f), []), y])
  {
    assert [] + [f, x] == [f, x];
    assert [] + [y] == [y];
  }

  /** The arithmetic builtins refuse closures: only primitive arguments specialise. */
  lemma {:induction false} BinaryRefusesClosures(fuel: nat, b: BuiltinId, l: IValue, r: IValue)
    requires BuiltinArity(b) == 2 && !b.FixNatF? && !(l.IPrim? && r.IPrim?)
    ensures CallBuiltin(fuel, Builtin(b), [l, r]) == Err(UnsupportedSpecialization)
  {
  }

  /**
   * The as-written partial application puts the later arguments before the
   * earlier ones: a two-argument closure returning its first parameter,
   * applied to 1 and then to 2, returns 2, while applying it to both at
   * once returns 1. The corrected partial application returns 1.
   */
  lemma {:induction false} PapAsWrittenSwapsArguments()
    ensures var c := IClosure(2, Var(0), [], []);
      var one := IPrim(PInt(1));
      var two := IPrim(PInt(2));
      && CallValue(1, c, [one, two]) == Ok(one)
      && CallValue(1, PapAsWritten(c, [one]), [two]) == Ok(two)
      && CallValue(1, Pap(c, [one]), [two]) == Ok(one)
  {
    var c := IClosure(2, Var(0), [], []);
    var one := IPrim(PInt(1));
    var two := IPrim(PInt(2));
    assert [] + [one, two] + [] == [one, two];
    assert [] + [two] + ([one] + []) == [two, one];
    assert [] + [one] + [two] + [] == [one, two];
  }

  // ---------------------------------------------------------------------------
  // Free variables, substitution and closure conversion
  // ---------------------------------------------------------------------------

  /** `Expr.fvs`: the free indices in first-occurrence order; a lambda's are its captures. */
  function Fvs(e: Expr): (r: seq<int>)
    ensures Terms.Distinct(r)
    decreases Size(e), 0
  {
    match e
    case Lam(_, _, caps) => Terms.Union([], caps)
    case Var(i) => [i]
    case App(f, args) => Terms.Union(Fvs(f), FvsAll(args))
    case If(c, t, f) => Terms.Union(Terms.Union(Fvs(c), Fvs(t)), Fvs(f))
    case Const(_) => []
  }

  /** The free indices of the arguments, concatenated. */
  function FvsAll(es: seq<Expr>): seq<int>
    decreases SizeAll(es), 1
  {
    if |es| == 0 then [] else Fvs(es[0]) + FvsAll(es[1..])
  }

  /** An independent statement of freeness: where an index occurs outside any lambda body. */
  predicate FreeIn(x: int, e: Expr)
    decreases Size(e), 0
  {
    match e
    case Lam(_, _, caps) => x in caps
    case Var(i) => x == i
    case App(f, args) => FreeIn(x, f) || FreeInSome(x, args)
    case If(c, t, f) => FreeIn(x, c) || FreeIn(x, t) || FreeIn(x, f)
    case Const(_) => false
  }

  predicate FreeInSome(x: int, es: seq<Expr>)
    decreases SizeAll(es), 1
  {
    |es| > 0 && (FreeIn(x, es[0]) || FreeInSome(x, es[1..]))
  }

  /** `fvs` lists exactly the free indices. */
  lemma {:induction false} FvsExact(x: int, e: Expr)
    ensures x in Fvs(e) <==> FreeIn(x, e)
    decreases Size(e), 0
  {
    match e
    case Lam(_, _, caps) =>
      assert Terms.Elems(Fvs(e)) == Terms.Elems(caps);
      assert x in Fvs(e) <==> x in Terms.Elems(Fvs(e));
    case Var(_) =>
    case App(f, args) =>
      FvsExact(x, f);
      FvsAllExact(x, args);
      assert x in Fvs(e) <==> x in Terms.Elems(Fvs(e));
      assert x in FvsAll(args) <==> x in Terms.Elems(FvsAll(args));
      assert x in Fvs(f) <==> x in Terms.Elems(Fvs(f));
    case If(c, t, f) =>
      FvsExact(x, c);
      FvsExact(x, t);
      FvsExact(x, f);
      var ct := Terms.Union(Fvs(c), Fvs(t));
      assert x in Fvs(e) <==> x in Terms.Elems(Fvs(e));
      assert x in ct <==> x in Terms.Elems(ct);
      assert x in Fvs(c) <==> x in Terms.Elems(Fvs(c));
      assert x in Fvs(t) <==> x in Terms.Elems(Fvs(t));
      assert x in Fvs(f) <==> x in Terms.Elems(Fvs(f));
    case Const(_) =>
  }

  lemma {:induction false} FvsAllExact(x: int, es: seq<Expr>)
    ensures x in FvsAll(es) <==> FreeInSome(x, es)
    decreases SizeAll(es), 1
  {
    if |es| > 0 {
      FvsExact(x, es[0]);
      FvsAllExact(x, es[1..]);
    }
  }

  /** `indexOf` / `indexOfFirst`: the first position holding x, or -1. */
  function IndexOfFirst<X(==)>(xs: seq<X>, x: X): (i: int)
    ensures x !in xs <==> i == -1
    ensures x in xs ==> 0 <= i < |xs| && xs[i] == x && x !in xs[..i]
  {
    if x in xs then FirstIndex(xs, x) else -1
  }

  /** The indices at least n, in order. */
  function AtLeast(xs: seq<int>, n: nat): (r: seq<int>)
    ensures forall x :: x in r <==> x in xs && x >= n
    ensures Terms.Distinct(xs) ==> Terms.Distinct(r)
  {
    if |xs| == 0 then []
    else if xs[0] >= n then
      assert Terms.Distinct(xs) ==> xs[0] !in xs[1..];
      [xs[0]] + AtLeast(xs[1..], n)
    else AtLeast(xs[1..], n)
  }

  function Shift(xs: seq<int>, n: nat): (r: seq<int>)
    ensures |r| == |xs| && forall i :: 0 <= i < |xs| ==> r[i] == xs[i] - n
    ensures Terms.Distinct(xs) ==> Terms.Distinct(r)
  {
    if |xs| == 0 then [] else [xs[0] - n] + Shift(xs[1..], n)
  }

  /**
   * A substitution of indices for indices, which is every substitution
   * the elaborator builds; None marks an index whose image would be read
   * outside a captures array, which throws.
   */
  type Renaming = int -> Option<int>

  /** Inside an m-ary lambda: parameters stay, a captured index j goes where the j-th capture goes, shifted past the parameters. */
  function Under(m: nat, caps: seq<int>, s: Renaming): Renaming
  {
    (x: int) =>
      if x < m then Some(x)
      else if x - m < |caps| && s(caps[x - m]).Some? then Some(s(caps[x - m]).value + m)
      else None
  }

  /** `Expr.subst` with a renaming: lambdas are rebuilt by `lam`, which recomputes their captures. */
  function Subst(e: Expr, s: Renaming): (r: Result<Expr, Fault>)
    ensures r.Ok? ==> Size(r.value) == Size(e)
    ensures r.Err? ==> r.error == IndexOutOfBounds
    decreases Size(e), 0
  {
    match e
    case Lam(m, b, caps) =>
      (match Subst(b, Under(m, caps, s))
       case Err(err) => Err(err)
       case Ok(b2) => MkLam(m, b2))
    case Var(i) => if s(i).Some? then Ok(Var(s(i).value)) else Err(IndexOutOfBounds)
    case App(f, args) =>
      (match Subst(f, s)
       case Err(err) => Err(err)
       case Ok(f2) =>
         match SubstAll(args, s)
         case Err(err) => Err(err)
         case Ok(args2) => Ok(App(f2, args2)))
    case If(c, t, f) =>
      (match Subst(c, s)
       case Err(err) => Err(err)
       case Ok(c2) =>
         match Subst(t, s)
         case Err(err) => Err(err)
         case Ok(t2) =>
           match Subst(f, s)
           case Err(err) => Err(err)
           case Ok(f2) => Ok(If(c2, t2, f2)))
    case Const(_) => Ok(e)
  }

  function SubstAll(es: seq<Expr>, s: Renaming): (r: Result<seq<Expr>, Fault>)
    ensures r.Ok? ==> |r.value| == |es| && SizeAll(r.value) == SizeAll(es)
    ensures r.Err? ==> r.error == IndexOutOfBounds
    decreases SizeAll(es), 1
  {
    if |es| == 0 then Ok([])
    else
      match Subst(es[0], s)
      case Err(err) => Err(err)
      case Ok(e2) =>
        match SubstAll(es[1..], s)
        case Err(err) => Err(err)
        case Ok(rest) =>
          assert ([e2] + rest)[1..] == rest;
          Ok([e2] + rest)
  }

  /** The renaming `lam` applies to its body: parameters stay, the free index vs[j] becomes n + j. */
  function Closing(n: nat, vs: seq<int>): Renaming
  {
    (x: int) => Some(if x < n then x else n + IndexOfFirst(vs, x))
  }

  /**
   * `lam`: closure conversion of an n-ary lambda body. The free indices at
   * least n become the captures (shifted below the parameters), and the
   * body is renamed to read them from the environment after the parameters.
   */
  function MkLam(n: nat, b: Expr): (r: Result<Expr, Fault>)
    ensures r.Ok? ==> r.value.Lam? && r.value.n == n && Size(r.value) == Size(b) + 1
    ensures r.Ok? ==> r.value.captures == Shift(AtLeast(Fvs(b), n), n)
    ensures r.Err? ==> r.error == IndexOutOfBounds
    decreases Size(b), 1
  {
    var vs := AtLeast(Fvs(b), n);
    match Subst(b, Closing(n, vs))
    case Err(err) => Err(err)
    case Ok(b2) => Ok(Lam(n, b2, Shift(vs, n)))
  }

  /**
   * The captures of a converted lambda are exactly the body's free indices
   * beyond the parameters, shifted down, each once; and they are the free
   * indices of the lambda itself.
   */
  lemma {:induction false} MkLamCaptures(n: nat, b: Expr, x: int)
    requires MkLam(n, b).Ok?
    ensures x in MkLam(n, b).value.captures <==> x >= 0 && FreeIn(x + n, b)
    ensures Terms.Distinct(MkLam(n, b).value.captures)
    ensures Fvs(MkLam(n, b).value) == MkLam(n, b).value.captures
  {
    var caps := MkLam(n, b).value.captures;
    FvsExact(x + n, b);
    ShiftAtLeast(Fvs(b), n, x);
    UnionDistinct(caps);
  }

  /** Shifting the indices at least n down by n: which indices result, each once. */
  lemma {:induction false} ShiftAtLeast(xs: seq<int>, n: nat, x: int)
    requires Terms.Distinct(xs)
    ensures x in Shift(AtLeast(xs, n), n) <==> x >= 0 && x + n in xs
    ensures Terms.Distinct(Shift(AtLeast(xs, n), n))
  {
    ShiftMembers(AtLeast(xs, n), n, x);
  }

  lemma {:induction false} ShiftMembers(vs: seq<int>, n: nat, x: int)
    ensures x in Shift(vs, n) <==> x + n in vs
  {
    if x in Shift(vs, n) { ShiftedFrom(vs, n, x); }
    if x + n in vs { ShiftedTo(vs, n, x); }
  }

  lemma {:induction false} ShiftedFrom(vs: seq<int>, n: nat, x: int)
    requires x in Shift(vs, n)
    ensures x + n in vs
  {
    var caps := Shift(vs, n);
    var i :| 0 <= i < |caps| && caps[i] == x;
    assert vs[i] == x + n;
  }

  lemma {:induction false} ShiftedTo(vs: seq<int>, n: nat, x: int)
    requires x + n in vs
    ensures x in Shift(vs, n)
  {
    var caps := Shift(vs, n);
    var i :| 0 <= i < |vs| && vs[i] == x + n;
    assert caps[i] == x;
  }

  /** Adding a list without repeats to the empty list gives the list back. */
  lemma {:induction false} UnionDistinct(xs: seq<int>)
    requires Terms.Distinct(xs)
    ensures Terms.Union([], xs) == xs
  {
    UnionDisjoint([], xs);
  }

  lemma {:induction false} UnionDisjoint(a: seq<int>, b: seq<int>)
    requires Terms.Distinct(a + b)
    ensures Terms.Union(a, b) == a + b
    decreases |b|
  {
    if |b| > 0 {
      assert b[0] == (a + b)[|a|];
      assert b[0] !in a by {
        forall i | 0 <= i < |a| ensures a[i] != b[0] {
          assert a[i] == (a + b)[i];
        }
      }
      assert a + [b[0]] + b[1..] == a + b;
      UnionDisjoint(a + [b[0]], b[1..]);
    }
  }

  // ---------------------------------------------------------------------------
  // Well-scoped expressions: conversion never reads outside a captures array
  // ---------------------------------------------------------------------------

  /** Every lambda inside reads each free index beyond its parameters from its captures. */
  ghost predicate WellScoped(e: Expr)
    decreases Size(e), 0
  {
    match e
    case Lam(m, b, caps) => WellScoped(b) && forall x :: FreeIn(x, b) && x >= m ==> x - m < |caps|
    case Var(_) => true
    case App(f, args) => WellScoped(f) && AllWellScoped(args)
    case If(c, t, f) => WellScoped(c) && WellScoped(t) && WellScoped(f)
    case Const(_) => true
  }

  ghost predicate AllWellScoped(es: seq<Expr>)
    decreases SizeAll(es), 1
  {
    |es| == 0 || (WellScoped(es[0]) && AllWellScoped(es[1..]))
  }

  /** Renaming where the renaming is defined on every free index succeeds, keeps scoping, and frees only images of free indices. */
  lemma {:induction false} SubstScoped(e: Expr, s: Renaming)
    requires WellScoped(e)
    requires forall x :: FreeIn(x, e) ==> s(x).Some?
    ensures Subst(e, s).Ok?
    ensures WellScoped(Subst(e, s).value)
    ensures forall y :: FreeIn(y, Subst(e, s).value) ==> exists x :: FreeIn(x, e) && s(x) == Some(y)
    decreases Size(e), 1
  {
    match e
    case Lam(m, b, caps) =>
      SubstLamScoped(m, b, caps, s);
    case Var(i) =>
      assert FreeIn(i, e);
    case App(f, args) =>
      SubstScoped(f, s);
      SubstAllScoped(args, s);
    case If(c, t, f) =>
      SubstScoped(c, s);
      SubstScoped(t, s);
      SubstScoped(f, s);
    case Const(_) =>
  }

  /** The lambda case of SubstScoped: the body is renamed under the lambda, then converted again. */
  lemma {:induction false} SubstLamScoped(m: nat, b: Expr, caps: seq<int>, s: Renaming)
    requires WellScoped(Lam(m, b, caps))
    requires forall x :: FreeIn(x, Lam(m, b, caps)) ==> s(x).Some?
    ensures Subst(Lam(m, b, caps), s).Ok?
    ensures WellScoped(Subst(Lam(m, b, caps), s).value)
    ensures forall y :: FreeIn(y, Subst(Lam(m, b, caps), s).value) ==>
      exists x :: FreeIn(x, Lam(m, b, caps)) && s(x) == Some(y)
    decreases Size(b) + 1, 0
  {
    var e := Lam(m, b, caps);
    var inner := Under(m, caps, s);
    UnderDefinedOnBody(m, b, caps, s);
    SubstScoped(b, inner);
    var b2 := Subst(b, inner).value;
    MkLamScoped(m, b2);
    var r := MkLam(m, b2).value;
    assert Subst(e, s) == Ok(r);
    forall y | FreeIn(y, r) ensures exists x :: FreeIn(x, e) && s(x) == Some(y) {
      FreeThroughUnder(m, b, caps, s, b2, y);
    }
  }

  /** Under a well-scoped lambda, the inner renaming is defined on every free index of the body. */
  lemma {:induction false} UnderDefinedOnBody(m: nat, b: Expr, caps: seq<int>, s: Renaming)
    requires WellScoped(Lam(m, b, caps))
    requires forall x :: FreeIn(x, Lam(m, b, caps)) ==> s(x).Some?
    ensures forall x :: FreeIn(x, b) ==> Under(m, caps, s)(x).Some?
  {
    forall x | FreeIn(x, b) ensures Under(m, caps, s)(x).Some? {
      if x >= m {
        assert x - m < |caps|;
        assert FreeIn(caps[x - m], Lam(m, b, caps));
      }
      UnderDefined(m, caps, s, x);
    }
  }

  /** An index free in the renamed body beyond the parameters comes from a capture the outer renaming maps. */
  lemma {:induction false} FreeThroughUnder(m: nat, b: Expr, caps: seq<int>, s: Renaming, b2: Expr, y: int)
    requires forall y :: FreeIn(y, b2) ==> exists x :: FreeIn(x, b) && Under(m, caps, s)(x) == Some(y)
    requires y >= 0 && FreeIn(y + m, b2)
    ensures exists x :: FreeIn(x, Lam(m, b, caps)) && s(x) == Some(y)
  {
    var x :| FreeIn(x, b) && Under(m, caps, s)(x) == Some(y + m);
    UnderBack(m, caps, s, x, y);
    assert caps[x - m] in caps;
    assert FreeIn(caps[x - m], Lam(m, b, caps));
  }

  lemma {:induction false} UnderDefined(m: nat, caps: seq<int>, s: Renaming, x: int)
    requires x < m || (x - m < |caps| && s(caps[x - m]).Some?)
    ensures Under(m, caps, s)(x).Some?
  {
  }

  lemma {:induction false} UnderBack(m: nat, caps: seq<int>, s: Renaming, x: int, y: int)
    requires y >= 0 && Under(m, caps, s)(x) == Some(y + m)
    ensures x >= m && x - m < |caps| && s(caps[x - m]) == Some(y)
  {
  }

  lemma {:induction false} SubstAllScoped(es: seq<Expr>, s: Renaming)
    requires AllWellScoped(es)
    requires forall x :: FreeInSome(x, es) ==> s(x).Some?
    ensures SubstAll(es, s).Ok?
    ensures AllWellScoped(SubstAll(es, s).value)
    ensures forall y :: FreeInSome(y, SubstAll(es, s).value) ==> exists x :: FreeInSome(x, es) && s(x) == Some(y)
    decreases SizeAll(es), 2
  {
    if |es| > 0 {
      SubstScoped(es[0], s);
      SubstAllScoped(es[1..], s);
      var r := SubstAll(es, s).value;
      assert r == [Subst(es[0], s).value] + SubstAll(es[1..], s).value;
      assert r[1..] == SubstAll(es[1..], s).value;
    }
  }

  /**
   * Closure conversion of a well-scoped body succeeds and gives a
   * well-scoped lambda whose free indices are the body's, beyond the
   * parameters, shifted down.
   */
  lemma {:induction false} MkLamScoped(n: nat, b: Expr)
    requires WellScoped(b)
    ensures MkLam(n, b).Ok?
    ensures WellScoped(MkLam(n, b).value)
    ensures forall y :: FreeIn(y, MkLam(n, b).value) ==> y >= 0 && FreeIn(y + n, b)
    decreases Size(b), 2
  {
    var vs := AtLeast(Fvs(b), n);
    var s := Closing(n, vs);
    SubstScoped(b, s);
    var b2 := Subst(b, s).value;
    var r := MkLam(n, b2);
    assert MkLam(n, b) == Ok(Lam(n, b2, Shift(vs, n)));
    forall y | FreeIn(y, b2) && y >= n ensures y - n < |vs| {
      var x :| FreeIn(x, b) && s(x) == Some(y);
      FvsExact(x, b);
      assert x in vs;
    }
    forall y | FreeIn(y, MkLam(n, b).value) ensures y >= 0 && FreeIn(y + n, b) {
      MkLamCaptures(n, b, y);
    }
  }

  // ---------------------------------------------------------------------------
  // Elaboration
  // ---------------------------------------------------------------------------

  /**
   * `elab`'s context, innermost binding first. A binding named None is
   * present (it takes up its index) but no variable can refer to it; only
   * the corrected parameter list uses it.
   */
  type ElabCtx = seq<(Option<string>, NameInfo)>

  /** `indexOfFirst { it.first == name }`: -1 when nothing visible has the name. */
  function Resolve(ctx: ElabCtx, x: string): int
  {
    IndexOfFirst(Terms.Firsts(ctx), Some(x))
  }

  /** The parameter list as written: every parameter visible under its name, in order. */
  function ParamsAsWritten(names: seq<(string, Type)>): (r: ElabCtx)
    ensures |r| == |names| && forall i :: 0 <= i < |names| ==> r[i] == (Some(names[i].0), NameInfo(names[i].1, None))
  {
    seq(|names|, i requires 0 <= i < |names| => (Some(names[i].0), NameInfo(names[i].1, None)))
  }

  /** Whether a later parameter of the lambda has the same name as the i-th. */
  predicate ShadowedLater(names: seq<(string, Type)>, i: nat)
    requires i < |names|
  {
    names[i].0 in Terms.Firsts(names[i + 1..])
  }

  /**
   * The corrected parameter list: a parameter whose name a later parameter
   * repeats is hidden, so that a name resolves to its last occurrence, as
   * in type checking and in the compiled lambda.
   */
  function Params(names: seq<(string, Type)>): (r: ElabCtx)
    ensures |r| == |names|
    ensures forall i :: 0 <= i < |names| ==>
      r[i] == (if ShadowedLater(names, i) then None else Some(names[i].0), NameInfo(names[i].1, None))
  {
    seq(|names|, i requires 0 <= i < |names| =>
      (if ShadowedLater(names, i) then None else Some(names[i].0), NameInfo(names[i].1, None)))
  }

  /**
   * `elab`: names become the index of their binding (-1 when unbound, which
   * fails when evaluated), lambdas are closure-converted by `lam`, and
   * `let` is not implemented.
   */
  function Elab(ctx: ElabCtx, t: Terms.Term): Result<Expr, Fault>
    decreases t, 1
  {
    match t
    case TVar(name) => Ok(Var(Resolve(ctx, name)))
    case TIf(c, a, b) =>
      (match Elab(ctx, c)
       case Err(err) => Err(err)
       case Ok(c2) =>
         match Elab(ctx, a)
         case Err(err) => Err(err)
         case Ok(a2) =>
           match Elab(ctx, b)
           case Err(err) => Err(err)
           case Ok(b2) => Ok(If(c2, a2, b2)))
    case TApp(f, _) =>
      (match Elab(ctx, f)
       case Err(err) => Err(err)
       case Ok(f2) =>
         match ElabAll(ctx, t, 0)
         case Err(err) => Err(err)
         case Ok(rands) => Ok(App(f2, rands)))
    case TLam(names, body) =>
      (match Elab(Params(names) + ctx, body)
       case Err(err) => Err(err)
       case Ok(b) => MkLam(|names|, b))
    case TLitNat(n) => Ok(Const(IPrim(PInt(n))))
    case TLet(_, _, _, _) => Err(Todo("An operation is not implemented."))
  }

  /** The operands from the i-th on, elaborated left to right. */
  function ElabAll(ctx: ElabCtx, t: Terms.Term, i: nat): (r: Result<seq<Expr>, Fault>)
    requires t.TApp? && i <= |t.trands|
    ensures r.Ok? ==> |r.value| == |t.trands| - i
    decreases t, 0, |t.trands| - i
  {
    if i == |t.trands| then Ok([])
    else
      match Elab(ctx, t.trands[i])
      case Err(err) => Err(err)
      case Ok(e) =>
        match ElabAll(ctx, t, i + 1)
        case Err(err) => Err(err)
        case Ok(rest) => Ok([e] + rest)
  }

  /** Terms without `let`, the one construct elaboration does not implement. */
  predicate NoLet(t: Terms.Term)
  {
    match t
    case TVar(_) => true
    case TIf(c, a, b) => NoLet(c) && NoLet(a) && NoLet(b)
    case TApp(f, rands) => NoLet(f) && forall k :: 0 <= k < |rands| ==> NoLet(rands[k])
    case TLam(_, body) => NoLet(body)
    case TLet(_, _, _, _) => false
    case TLitNat(_) => true
  }

  /**
   * Elaboration fails only on `let`: every other term elaborates, and its
   * lambdas are well scoped, so the conversion inside never reads outside
   * a captures array.
   */
  lemma {:induction false} ElabScoped(ctx: ElabCtx, t: Terms.Term)
    ensures NoLet(t) ==> Elab(ctx, t).Ok? && WellScoped(Elab(ctx, t).value)
    ensures !NoLet(t) ==> Elab(ctx, t).Err?
    decreases t, 1
  {
    match t
    case TVar(_) =>
    case TIf(c, a, b) =>
      ElabScoped(ctx, c);
      ElabScoped(ctx, a);
      ElabScoped(ctx, b);
    case TApp(f, rands) =>
      ElabScoped(ctx, f);
      ElabAllScoped(ctx, t, 0);
    case TLam(names, body) =>
      ElabScoped(Params(names) + ctx, body);
      if NoLet(t) {
        MkLamScoped(|names|, Elab(Params(names) + ctx, body).value);
      }
    case TLet(_, _, _, _) =>
    case TLitNat(_) =>
  }

  lemma {:induction false} ElabAllScoped(ctx: ElabCtx, t: Terms.Term, i: nat)
    requires t.TApp? && i <= |t.trands|
    ensures (forall k :: i <= k < |t.trands| ==> NoLet(t.trands[k])) ==>
      ElabAll(ctx, t, i).Ok? && AllWellScoped(ElabAll(ctx, t, i).value)
    ensures (exists k :: i <= k < |t.trands| && !NoLet(t.trands[k])) ==> ElabAll(ctx, t, i).Err?
    decreases t, 0, |t.trands| - i
  {
    if i < |t.trands| {
      ElabScoped(ctx, t.trands[i]);
      ElabAllScoped(ctx, t, i + 1);
      if ElabAll(ctx, t, i).Ok? {
        var r := ElabAll(ctx, t, i).value;
        assert r[1..] == ElabAll(ctx, t, i + 1).value;
      }
      if exists k :: i <= k < |t.trands| && !NoLet(t.trands[k]) {
        var k :| i <= k < |t.trands| && !NoLet(t.trands[k]);
        if k > i {
          assert exists k' :: i + 1 <= k' < |t.trands| && !NoLet(t.trands[k']);
        }
      }
    }
  }

  /** The cells of an environment, head first. */
  function Cells<T>(e: Env<T>): seq<(Option<string>, T)>
  {
    if e.Nil? then [] else [(Some(e.name), e.value)] + Cells(e.next)
  }

  /** The loop of `initialCtxElab`: walk a context's cells from the head, collecting them. */
  method CollectCells(ctx: Ctx) returns (r: ElabCtx)
    ensures r == Cells(ctx)
  {
    r := [];
    var x := ctx;
    while x.Cons?
      invariant Cells(ctx) == r + Cells(x)
      decreases x
    {
      assert Cells(x) == [(Some(x.name), x.value)] + Cells(x.next);
      r := r + [(Some(x.name), x.value)];
      x := x.next;
    }
  }

  /** `initialCtxElab`: the initial context's cells, as a list; each names a builtin. */
  method InitialCtxElab() returns (r: ElabCtx)
    ensures r == Cells(InitialCtx())
    ensures AllBuiltins(r)
  {
    r := CollectCells(InitialCtx());
    FoldCellsBuiltins(InitialBindings, Nil);
  }

  /** Every binding of the context names a builtin, as `initialEnv` demands. */
  predicate AllBuiltins(ctx: ElabCtx)
  {
    forall i :: 0 <= i < |ctx| ==> ctx[i].1.builtin.Some?
  }

  /** `initialEnv`: a builtin closure with nothing applied for each binding; every binding must name a builtin. */
  function InitialEnv(ctx: ElabCtx): (env: seq<IValue>)
    requires AllBuiltins(ctx)
    ensures |env| == |ctx|
    ensures forall i :: 0 <= i < |ctx| ==> env[i] == IBuiltin(Builtin(ctx[i].1.builtin.value), [])
  {
    seq(|ctx|, i requires 0 <= i < |ctx| => IBuiltin(Builtin(ctx[i].1.builtin.value), []))
  }

  // ---------------------------------------------------------------------------
  // Properties of elaboration
  // ---------------------------------------------------------------------------

  /**
   * A name elaborates to the index of its innermost visible binding; in an
   * environment laid out like the context it evaluates to the value there,
   * and an unbound name fails with an index error.
   */
  lemma {:induction false} ElabVarEval(fuel: nat, ctx: ElabCtx, env: seq<IValue>, x: string)
    requires |env| == |ctx|
    ensures var i := Resolve(ctx, x);
      && Elab(ctx, Terms.TVar(x)) == Ok(Var(i))
      && (Some(x) in Terms.Firsts(ctx) ==>
            0 <= i < |ctx| && ctx[i].0 == Some(x) && (forall j :: 0 <= j < i ==> ctx[j].0 != Some(x))
            && Eval(fuel, Var(i), env) == Ok(env[i]))
      && (Some(x) !in Terms.Firsts(ctx) ==> Eval(fuel, Var(i), env) == Err(IndexOutOfBounds))
  {
    var i := Resolve(ctx, x);
    var fs := Terms.Firsts(ctx);
    if Some(x) in fs {
      forall j | 0 <= j < i ensures ctx[j].0 != Some(x) {
        assert fs[..i][j] == ctx[j].0;
      }
    }
  }

  /**
   * Under the corrected parameter list a parameter name resolves to its last
   * occurrence, which is also the binding type checking gives it.
   */
  lemma {:induction false} ParamResolvesLast(names: seq<(string, Type)>, ctx: ElabCtx, tctx: Ctx, i: nat)
    requires i < |names| && !ShadowedLater(names, i)
    ensures Resolve(Params(names) + ctx, names[i].0) == i
    ensures Find(Terms.Extend(tctx, names), names[i].0) == Ok(NameInfo(names[i].1, None))
  {
    var full := Params(names) + ctx;
    var fs := Terms.Firsts(full);
    var x := names[i].0;
    assert fs[i] == Some(x);
    forall j | 0 <= j < i ensures fs[j] != Some(x) {
      if names[j].0 == x {
        assert names[j + 1..][i - j - 1] == names[i];
        assert Terms.Firsts(names[j + 1..])[i - j - 1] == x;
      }
    }
    assert Some(x) !in fs[..i];
    forall j | i < j < |names| ensures names[j].0 != x {
      assert names[i + 1..][j - i - 1] == names[j];
      assert Terms.Firsts(names[i + 1..])[j - i - 1] == names[j].0;
    }
    Terms.ExtendShadows(tctx, names, i);
  }

  /** A name that is not a parameter skips the parameters and resolves in the enclosing context. */
  lemma {:induction false} NonParamResolves(names: seq<(string, Type)>, ctx: ElabCtx, x: string)
    requires x !in Terms.Firsts(names)
    ensures Resolve(Params(names) + ctx, x) == if Resolve(ctx, x) == -1 then -1 else |names| + Resolve(ctx, x)
  {
    var ps := Terms.Firsts(Params(names));
    ParamsMissing(names, x);
    FirstsAppend(Params(names), ctx);
    IndexOfFirstSkips(ps, Terms.Firsts(ctx), Some(x));
  }

  lemma {:induction false} ParamsMissing(names: seq<(string, Type)>, x: string)
    requires x !in Terms.Firsts(names)
    ensures Some(x) !in Terms.Firsts(Params(names))
  {
  }

  lemma {:induction false} FirstsAppend<X, Y>(a: seq<(X, Y)>, b: seq<(X, Y)>)
    ensures Terms.Firsts(a + b) == Terms.Firsts(a) + Terms.Firsts(b)
  {
  }

  lemma {:induction false} IndexOfFirstSkips<X>(a: seq<X>, b: seq<X>, x: X)
    requires x !in a
    ensures IndexOfFirst(a + b, x) == if IndexOfFirst(b, x) == -1 then -1 else |a| + IndexOfFirst(b, x)
  {
    var k := IndexOfFirst(b, x);
    if k != -1 {
      assert (a + b)[|a| + k] == x;
      assert x !in (a + b)[..|a| + k] by {
        assert (a + b)[..|a| + k] == a + b[..k];
      }
    } else {
      assert x !in a + b;
    }
  }

  /**
   * As written, `\(x: Nat) (x: Bool) -> x` refers to the first parameter, a
   * Nat, although type checking gives the body the second parameter's type
   * Bool; the corrected list refers to the second.
   */
  lemma {:induction false} ParamsAsWrittenPicksFirst(tctx: Ctx, ctx: ElabCtx)
    ensures var names := [("x", Nat), ("x", Bool)];
      && Resolve(ParamsAsWritten(names) + ctx, "x") == 0
      && Resolve(Params(names) + ctx, "x") == 1
      && Terms.Infer(tctx, Terms.TLam(names, Terms.TVar("x"))) == Ok(Arr(Nat, Arr(Bool, Bool)))
  {
    var names := [("x", Nat), ("x", Bool)];
    var fw := Terms.Firsts(ParamsAsWritten(names) + ctx);
    assert fw[0] == Some("x");
    assert names[1..] == [("x", Bool)];
    assert Terms.Firsts(names[1..]) == ["x"];
    assert ShadowedLater(names, 0);
    assert !ShadowedLater(names, 1);
    ParamResolvesLast(names, ctx, tctx, 1);
    assert Terms.Extend(tctx, names) == Cons("x", NameInfo(Bool, None), Cons("x", NameInfo(Nat, None), tctx));
  }

  /** The cells of the initial context's fold all name builtins. */
  lemma {:induction false} FoldCellsBuiltins(bs: seq<(string, BuiltinId)>, acc: Ctx)
    requires AllBuiltins(Cells(acc))
    ensures AllBuiltins(Cells(FoldBindings(bs, acc)))
    decreases |bs|
  {
    if |bs| > 0 {
      var acc2 := Cons(bs[0].0, Info(bs[0].1), acc);
      assert Cells(acc2) == [(Some(bs[0].0), Info(bs[0].1))] + Cells(acc);
      FoldCellsBuiltins(bs[1..], acc2);
    }
  }

  /** Elaboration resolves a name to the cell `lookup` finds: the head-most one with that name. */
  lemma {:induction false} CellsFind(e: Ctx, x: string)
    ensures Find(e, x).Ok? <==> Resolve(Cells(e), x) != -1
    ensures Find(e, x).Ok? ==> Cells(e)[Resolve(Cells(e), x)].1 == Find(e, x).value
    decreases e
  {
    if e.Cons? {
      var head := [(Some(e.name), e.value)];
      assert Cells(e) == head + Cells(e.next);
      FirstsAppend(head, Cells(e.next));
      if e.name == x {
        assert Terms.Firsts(Cells(e))[0] == Some(x);
      } else {
        CellsFind(e.next, x);
        IndexOfFirstSkips(Terms.Firsts(head), Terms.Firsts(Cells(e.next)), Some(x));
      }
    }
  }

  /** A name bound to a builtin evaluates, through its elaborated index, to that builtin with nothing applied. */
  lemma {:induction false} NameResolvesToBuiltin(fuel: nat, e: Ctx, x: string, b: BuiltinId)
    requires Find(e, x) == Ok(Info(b)) && AllBuiltins(Cells(e))
    ensures Eval(fuel, Var(Resolve(Cells(e), x)), InitialEnv(Cells(e))) == Ok(IBuiltin(Builtin(b), []))
  {
    CellsFind(e, x);
  }

  /** In the initial context every builtin name resolves to its own builtin, and every cell names one. */
  lemma {:induction false} InitialNamesResolve(fuel: nat, i: nat)
    requires i < |InitialBindings|
    ensures AllBuiltins(Cells(InitialCtx()))
    ensures Find(InitialCtx(), InitialBindings[i].0) == Ok(Info(InitialBindings[i].1))
    ensures var ctx := Cells(InitialCtx());
      Eval(fuel, Var(Resolve(ctx, InitialBindings[i].0)), InitialEnv(ctx)) == Ok(IBuiltin(Builtin(InitialBindings[i].1), []))
  {
    FoldCellsBuiltins(InitialBindings, Nil);
    InitialCtxBindings();
    NameResolvesToBuiltin(fuel, InitialCtx(), InitialBindings[i].0, InitialBindings[i].1);
  }

  /** `plus m n`, elaborated where `plus` is the builtin and evaluated in the matching environment, is m + n. */
  lemma {:induction false} PlusAdds(fuel: nat, e: Ctx, m: Int32, n: Int32)
    requires fuel > 0 && Find(e, "plus") == Ok(Info(Plus)) && AllBuiltins(Cells(e))
    ensures var ctx := Cells(e);
      var t := Terms.TApp(Terms.TVar("plus"), [Terms.TLitNat(m), Terms.TLitNat(n)]);
      && Elab(ctx, t).Ok?
      && var r := Eval(fuel, Elab(ctx, t).value, InitialEnv(ctx));
         r.Ok? && NumberOf(Lower(r.value)) == Some(m + n)
  {
    var ctx := Cells(e);
    NameResolvesToBuiltin(fuel, e, "plus", Plus);
    ElabBinaryApp(ctx, "plus", m, n);
    EvalBinaryApp(fuel, InitialEnv(ctx), Resolve(ctx, "plus"), Plus, m, n);
  }

  lemma {:induction false} ElabBinaryApp(ctx: ElabCtx, f: string, m: Int32, n: Int32)
    ensures Elab(ctx, Terms.TApp(Terms.TVar(f), [Terms.TLitNat(m), Terms.TLitNat(n)])) ==
      Ok(App(Var(Resolve(ctx, f)), [Const(IPrim(PInt(m))), Const(IPrim(PInt(n)))]))
  {
    var t := Terms.TApp(Terms.TVar(f), [Terms.TLitNat(m), Terms.TLitNat(n)]);
    var lm := Const(IPrim(PInt(m)));
    var ln := Const(IPrim(PInt(n)));
    assert ElabAll(ctx, t, 2) == Ok([]);
    assert Elab(ctx, t.trands[1]) == Ok(ln);
    assert [ln] + [] == [ln];
    assert ElabAll(ctx, t, 1) == Ok([ln]);
    assert Elab(ctx, t.trands[0]) == Ok(lm);
    assert [lm] + [ln] == [lm, ln];
    assert ElabAll(ctx, t, 0) == Ok([lm, ln]);
    assert Elab(ctx, t.trator) == Ok(Var(Resolve(ctx, f)));
  }

  lemma {:induction false} EvalBinaryApp(fuel: nat, env: seq<IValue>, k: int, b: BuiltinId, m: Int32, n: Int32)
    requires fuel > 0 && 0 <= k < |env| && env[k] == IBuiltin(Builtin(b), [])
    requires BuiltinArity(b) == 2 && !b.FixNatF?
    ensures var r := Eval(fuel, App(Var(k), [Const(IPrim(PInt(m))), Const(IPrim(PInt(n)))]), env);
      r == (match Binary(b, Int(m), Int(n)) case Ok(v) => Ok(IPrim(v.p)) case Err(err) => Err(err))
  {
    var args := [Const(IPrim(PInt(m))), Const(IPrim(PInt(n)))];
    assert args[1..] == [Const(IPrim(PInt(n)))] && args[1..][1..] == [];
    assert EvalAll(fuel, args[1..][1..], env) == Ok([]);
    assert Eval(fuel, args[1], env) == Ok(IPrim(PInt(n)));
    assert [IPrim(PInt(n))] + [] == [IPrim(PInt(n))];
    assert EvalAll(fuel, args[1..], env) == Ok([IPrim(PInt(n))]);
    assert Eval(fuel, args[0], env) == Ok(IPrim(PInt(m)));
    assert [IPrim(PInt(m))] + [IPrim(PInt(n))] == [IPrim(PInt(m)), IPrim(PInt(n))];
    var ys := [IPrim(PInt(m)), IPrim(PInt(n))];
    assert EvalAll(fuel, args, env) == Ok(ys);
    assert [] + ys == ys;
    assert Eval(fuel, Var(k), env) == Ok(IBuiltin(Builtin(b), []));
    assert Lower(ys[0]) == Int(m) && Lower(ys[1]) == Int(n);
    assert CallValue(fuel, IBuiltin(Builtin(b), []), ys) == CallBuiltin(fuel - 1, Builtin(b), ys);
  }
}

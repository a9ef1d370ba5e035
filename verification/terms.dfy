/**
 * Surface terms and their bidirectional type checker
 * (src/cadenza/semantics/terms.kt): free variables, `infer`/`check`, and the
 * plan a lambda's compilation makes for where each free variable of its body
 * comes from (a captured slot of the enclosing frame or an argument).
 */
module Terms {
  import opened Wrappers
  import opened Types
  import opened Values
  import opened Envs
  import opened Builtins

  datatype Term =
    | TVar(name: string)
    | TIf(cond: Term, thenTerm: Term, elseTerm: Term)
    | TApp(trator: Term, trands: seq<Term>)
    | TLam(names: seq<(string, Type)>, body: Term)
    | TLet(name: string, ty: Type, value: Term, body: Term)
    | TLitNat(lit: Int32)

  // ---------------------------------------------------------------------------
  // Insertion-ordered sets: Kotlin's `Set` built by `+`, `-` and `toSet`
  // iterates in first-insertion order, and the lambda plan depends on it.
  // ---------------------------------------------------------------------------

  predicate Distinct<X(==)>(xs: seq<X>)
  {
    forall i, j :: 0 <= i < j < |xs| ==> xs[i] != xs[j]
  }

  function Elems<X(==)>(xs: seq<X>): set<X>
  {
    set x | x in xs
  }

  /** `a + b` on ordered sets: the elements of b not yet present, appended in order. */
  function Union<X(==)>(a: seq<X>, b: seq<X>): (r: seq<X>)
    ensures Elems(r) == Elems(a) + Elems(b)
    ensures |a| <= |r| && r[..|a|] == a
    ensures Distinct(a) ==> Distinct(r)
    decreases |b|
  {
    if |b| == 0 then a
    else if b[0] in a then Union(a, b[1..])
    else
      var r := Union(a + [b[0]], b[1..]);
      assert (a + [b[0]])[..|a|] == a;
      assert r[..|a|] == r[..|a| + 1][..|a|];
      r
  }

  /** `a - names`: drop the removed elements, keeping the order of the rest. */
  function Minus<X(==)>(a: seq<X>, names: set<X>): (r: seq<X>)
    ensures Elems(r) == Elems(a) - names
    ensures Distinct(a) ==> Distinct(r)
    ensures |r| <= |a|
  {
    if |a| == 0 then []
    else
      var rest := Minus(a[1..], names);
      assert Elems(a) == {a[0]} + Elems(a[1..]);
      if a[0] in names then rest
      else
        MinusCons(a, rest, names);
        assert Elems([a[0]] + rest) == {a[0]} + Elems(rest);
        [a[0]] + rest
  }

  /** Keeping the head of a distinct sequence in front of a filtered tail keeps it distinct. */
  lemma {:induction false} MinusCons<X>(a: seq<X>, rest: seq<X>, names: set<X>)
    requires |a| > 0 && Elems(rest) == Elems(a[1..]) - names
    requires Distinct(a[1..]) ==> Distinct(rest)
    ensures Distinct(a) ==> Distinct([a[0]] + rest)
  {
    if Distinct(a) {
      forall i, j | 0 <= i < j < |a| - 1 ensures a[1..][i] != a[1..][j] {
        assert a[1..][i] == a[i + 1] && a[1..][j] == a[j + 1];
      }
      assert a[0] !in a[1..];
      assert a[0] !in Elems(rest);
      var r := [a[0]] + rest;
      forall i, j | 0 <= i < j < |r| ensures r[i] != r[j] {
        assert r[j] == rest[j - 1];
        if i > 0 {
          assert r[i] == rest[i - 1];
        }
      }
    }
  }

  function Firsts<X, Y>(ps: seq<(X, Y)>): (r: seq<X>)
    ensures |r| == |ps| && forall i :: 0 <= i < |ps| ==> r[i] == ps[i].0
  {
    if |ps| == 0 then [] else [ps[0].0] + Firsts(ps[1..])
  }

  function Seconds<X, Y>(ps: seq<(X, Y)>): (r: seq<Y>)
    ensures |r| == |ps| && forall i :: 0 <= i < |ps| ==> r[i] == ps[i].1
  {
    if |ps| == 0 then [] else [ps[0].1] + Seconds(ps[1..])
  }

  // ---------------------------------------------------------------------------
  // Free variables
  // ---------------------------------------------------------------------------

  /** `fvs`, in iteration order; it never lists a name twice. */
  function Fvs(t: Term): (r: seq<string>)
    ensures Distinct(r)
    decreases t, 1
  {
    match t
    case TVar(name) => [name]
    case TIf(c, a, b) => Union(Union(Fvs(c), Fvs(a)), Fvs(b))
    case TApp(f, rands) => Union(Fvs(f), FvsAll(t, 0))
    case TLam(names, body) => Minus(Fvs(body), Elems(Firsts(names)))
    case TLet(name, _, value, body) => Minus(Union(Fvs(value), Fvs(body)), {name})
    case TLitNat(_) => []
  }

  /** The operands' free variables from index i on, flattened in order. */
  function FvsAll(t: Term, i: nat): (r: seq<string>)
    requires t.TApp? && i <= |t.trands|
    ensures forall x :: x in r <==> exists k :: i <= k < |t.trands| && x in Fvs(t.trands[k])
    decreases t, 0, |t.trands| - i
  {
    if i == |t.trands| then []
    else
      var r := Fvs(t.trands[i]) + FvsAll(t, i + 1);
      assert forall x :: x in r && x !in Fvs(t.trands[i]) ==> exists k :: i + 1 <= k < |t.trands| && x in Fvs(t.trands[k]);
      r
  }

  /** `fvs` as sets, case by case. */
  lemma {:induction false} FvsCases(t: Term)
    ensures t.TVar? ==> Fvs(t) == [t.name]
    ensures t.TIf? ==> Elems(Fvs(t)) == Elems(Fvs(t.cond)) + Elems(Fvs(t.thenTerm)) + Elems(Fvs(t.elseTerm))
    ensures t.TApp? ==> forall x :: x in Fvs(t) <==>
      x in Fvs(t.trator) || exists k :: 0 <= k < |t.trands| && x in Fvs(t.trands[k])
    ensures t.TLam? ==> Elems(Fvs(t)) == Elems(Fvs(t.body)) - Elems(Firsts(t.names))
    ensures t.TLet? ==> Elems(Fvs(t)) == (Elems(Fvs(t.value)) + Elems(Fvs(t.body))) - {t.name}
    ensures t.TLitNat? ==> Fvs(t) == []
  {
    if t.TApp? {
      forall x ensures x in Fvs(t) <==> x in Fvs(t.trator) || x in FvsAll(t, 0) {
        assert x in Fvs(t) <==> x in Elems(Fvs(t));
        assert x in Fvs(t.trator) <==> x in Elems(Fvs(t.trator));
        assert x in FvsAll(t, 0) <==> x in Elems(FvsAll(t, 0));
      }
    }
  }

  // ---------------------------------------------------------------------------
  // Type checking
  // ---------------------------------------------------------------------------

  /** The context under a lambda: each parameter consed on in turn, so later names shadow earlier ones. */
  function Extend(ctx: Ctx, names: seq<(string, Type)>): Ctx
    decreases |names|
  {
    if |names| == 0 then ctx
    else Extend(Cons(names[0].0, NameInfo(names[0].1, None), ctx), names[1..])
  }

  /** `infer`: the type of the term's witness. */
  function Infer(ctx: Ctx, t: Term): Result<Type, Fault>
    decreases t, 1
  {
    match t
    case TVar(name) =>
      (match Find(ctx, name)
       case Ok(info) => Ok(info.ty)
       case Err(e) => Err(e))
    case TIf(c, a, b) =>
      if Check(ctx, c, Bool).Err? then Check(ctx, c, Bool)
      else
        (match Infer(ctx, a)
         case Err(e) => Err(e)
         case Ok(ty) => if Check(ctx, b, ty).Err? then Check(ctx, b, ty) else Ok(ty))
    case TApp(f, _) =>
      (match Infer(ctx, f)
       case Err(e) => Err(e)
       case Ok(ft) => InferRands(ctx, t, 0, ft))
    case TLam(names, body) =>
      (match Infer(Extend(ctx, names), body)
       case Err(e) => Err(e)
       case Ok(bt) => Ok(Arrows(Seconds(names), bt)))
    case TLet(name, ty, value, body) =>
      var ctx2 := Cons(name, NameInfo(ty, None), ctx);
      (match Infer(ctx2, value)
       case Err(e) => Err(e)
       case Ok(_) => Infer(ctx2, body))
    case TLitNat(n) =>
      (match Validate(Nat, Int(n))
       case Err(e) => Err(e)
       case Ok(_) => Ok(Nat))
  }

  /**
   * The operand loop of `TApp.infer`: peel one arrow per operand and check the
   * operand against its argument. The cast of a type that is not an arrow
   * fails before the `not a fun type` fallback is reached.
   */
  function InferRands(ctx: Ctx, t: Term, i: nat, current: Type): Result<Type, Fault>
    requires t.TApp? && i <= |t.trands|
    decreases t, 0, |t.trands| - i
  {
    if i == |t.trands| then Ok(current)
    else if !current.Arr? then Err(ClassCast)
    else if Check(ctx, t.trands[i], current.argument).Err? then Check(ctx, t.trands[i], current.argument)
    else InferRands(ctx, t, i + 1, current.result)
  }

  /** `check`: infer, then demand exactly the expected type. */
  function Check(ctx: Ctx, t: Term, expected: Type): (r: Result<Type, Fault>)
    ensures r.Ok? <==> Infer(ctx, t) == Ok(expected)
    ensures r.Ok? ==> r.value == expected
    ensures Infer(ctx, t).Ok? && r.Err? ==> r.error == TypeError("type mismatch", Some(Infer(ctx, t).value), Some(expected))
    ensures Infer(ctx, t).Err? ==> r == Infer(ctx, t)
    decreases t, 2
  {
    match Infer(ctx, t)
    case Err(e) => Err(e)
    case Ok(ty) =>
      match Match(ty, expected)
      case Ok(_) => Ok(ty)
      case Err(e) => Err(e)
  }

  /** The else branch is checked against the then branch's type, which is the type of the whole `if`. */
  lemma {:induction false} IfTyping(ctx: Ctx, c: Term, a: Term, b: Term, ty: Type)
    ensures Infer(ctx, TIf(c, a, b)) == Ok(ty) <==>
      Infer(ctx, c) == Ok(Bool) && Infer(ctx, a) == Ok(ty) && Infer(ctx, b) == Ok(ty)
  {
  }

  /** The operand has exactly the expected argument type, and there is one. */
  predicate Fits(ctx: Ctx, rand: Term, expected: Option<Type>)
  {
    expected.Some? && Infer(ctx, rand) == Ok(expected.value)
  }

  /** The operands from index i on check against successive arrow arguments of `current`. */
  lemma {:induction false} InferRandsTyping(ctx: Ctx, t: Term, i: nat, current: Type, ty: Type)
    requires t.TApp? && i <= |t.trands|
    ensures InferRands(ctx, t, i, current) == Ok(ty) <==>
      Peel(current, |t.trands| - i) == Some(ty)
      && forall k :: i <= k < |t.trands| ==> Fits(ctx, t.trands[k], ArgumentAt(current, k - i))
    decreases |t.trands| - i
  {
    if i == |t.trands| {
      return;
    }
    var n := |t.trands| - i;
    if !current.Arr? {
      assert Peel(current, n) == None;
      return;
    }
    RandsFitStep(ctx, t, i, current);
    if Check(ctx, t.trands[i], current.argument).Err? {
      assert !Fits(ctx, t.trands[i], Some(current.argument));
      return;
    }
    InferRandsTyping(ctx, t, i + 1, current.result, ty);
    assert Peel(current, n) == Peel(current.result, n - 1);
  }

  /** Applying an operator whose type is not an arrow to an operand is a failed cast, not a type error. */
  lemma {:induction false} NonFunctionApplied(ctx: Ctx, f: Term, rands: seq<Term>)
    requires |rands| > 0
    ensures Infer(ctx, f).Ok? && !Infer(ctx, f).value.Arr? ==> Infer(ctx, TApp(f, rands)) == Err(ClassCast)
    ensures Infer(ctx, TApp(TLitNat(1), [TLitNat(2)])) == Err(ClassCast)
  {
    var t := TApp(f, rands);
    if Infer(ctx, f).Ok? {
      assert Infer(ctx, t) == InferRands(ctx, t, 0, Infer(ctx, f).value);
    }
    var one := TApp(TLitNat(1), [TLitNat(2)]);
    assert Infer(ctx, TLitNat(1)) == Ok(Nat);
    assert Infer(ctx, one) == InferRands(ctx, one, 0, Nat);
  }

  /** The operands from index i on each fit the successive arrow arguments of `current`. */
  predicate RandsFit(ctx: Ctx, t: Term, i: nat, current: Type)
    requires t.TApp? && i <= |t.trands|
  {
    forall k :: i <= k < |t.trands| ==> Fits(ctx, t.trands[k], ArgumentAt(current, k - i))
  }

  /** Past an arrow, fitting from i means fitting its argument and then fitting the result from i + 1. */
  lemma {:induction false} RandsFitStep(ctx: Ctx, t: Term, i: nat, current: Type)
    requires t.TApp? && i < |t.trands| && current.Arr?
    ensures RandsFit(ctx, t, i, current) <==>
      Fits(ctx, t.trands[i], Some(current.argument)) && RandsFit(ctx, t, i + 1, current.result)
  {
    forall j: nat | j < |t.trands| - (i + 1)
      ensures ArgumentAt(current.result, j) == ArgumentAt(current, j + 1)
    {
    }
    assert ArgumentAt(current, i - i) == Some(current.argument);
  }

  /**
   * An application is typed exactly when each operand checks against the
   * successive arrow argument of the operator's type, and its type is what
   * remains after one arrow per operand.
   */
  lemma {:induction false} AppTyping(ctx: Ctx, f: Term, rands: seq<Term>, ty: Type)
    ensures Infer(ctx, TApp(f, rands)) == Ok(ty) <==>
      Infer(ctx, f).Ok? && Peel(Infer(ctx, f).value, |rands|) == Some(ty)
      && forall k :: 0 <= k < |rands| ==> Fits(ctx, rands[k], ArgumentAt(Infer(ctx, f).value, k))
  {
    var t := TApp(f, rands);
    if Infer(ctx, f).Ok? {
      var ft := Infer(ctx, f).value;
      assert Infer(ctx, t) == InferRands(ctx, t, 0, ft);
      RandsTyping(ctx, t, ft, ty);
    } else {
      assert Infer(ctx, t) == Err(Infer(ctx, f).error);
    }
  }

  /** The operands all check against the operator's type `ft`, from the first one on. */
  lemma {:induction false} RandsTyping(ctx: Ctx, t: Term, ft: Type, ty: Type)
    requires t.TApp?
    ensures InferRands(ctx, t, 0, ft) == Ok(ty) <==>
      Peel(ft, |t.trands|) == Some(ty)
      && forall k :: 0 <= k < |t.trands| ==> Fits(ctx, t.trands[k], ArgumentAt(ft, k))
  {
    InferRandsTyping(ctx, t, 0, ft, ty);
    forall k | 0 <= k < |t.trands| ensures ArgumentAt(ft, k - 0) == ArgumentAt(ft, k) {
    }
  }

  /** Under `Extend`, a parameter name resolves to its LAST occurrence in the list. */
  lemma {:induction false} ExtendShadows(ctx: Ctx, names: seq<(string, Type)>, i: nat)
    requires i < |names| && forall j :: i < j < |names| ==> names[j].0 != names[i].0
    ensures Find(Extend(ctx, names), names[i].0) == Ok(NameInfo(names[i].1, None))
    decreases |names|
  {
    if i == 0 {
      ExtendMisses(Cons(names[0].0, NameInfo(names[0].1, None), ctx), names[1..], names[0].0);
    } else {
      ExtendShadows(Cons(names[0].0, NameInfo(names[0].1, None), ctx), names[1..], i - 1);
    }
  }

  /** A name that is not a parameter is looked up in the enclosing context. */
  lemma {:induction false} ExtendMisses(ctx: Ctx, names: seq<(string, Type)>, n: string)
    requires forall j :: 0 <= j < |names| ==> names[j].0 != n
    ensures Find(Extend(ctx, names), n) == Find(ctx, n)
    decreases |names|
  {
    if |names| > 0 {
      ExtendMisses(Cons(names[0].0, NameInfo(names[0].1, None), ctx), names[1..], n);
    }
  }

  /** A lambda has type `t1 -> ... -> tn -> body`, its body typed under the extended context. */
  lemma {:induction false} LamTyping(ctx: Ctx, names: seq<(string, Type)>, body: Term)
    ensures Infer(ctx, TLam(names, body)).Ok? <==> Infer(Extend(ctx, names), body).Ok?
    ensures Infer(ctx, TLam(names, body)).Ok? ==>
      var ty := Infer(ctx, TLam(names, body)).value;
      Arity(ty) >= |names|
      && (forall k :: 0 <= k < |names| ==> ArgumentAt(ty, k) == Some(names[k].1))
      && Peel(ty, |names|) == Some(Infer(Extend(ctx, names), body).value)
  {
  }

  /**
   * `let` types its value in a context that already binds the name and never
   * compares the value's type with the declared one: a Nat value declared
   * Bool is accepted.
   */
  lemma {:induction false} LetIgnoresDeclaredType(ctx: Ctx)
    ensures Infer(ctx, TLet("x", Bool, TLitNat(1), TVar("x"))) == Ok(Bool)
    ensures Infer(ctx, TLitNat(1)) == Ok(Nat)
  {
  }

  /** A natural literal has type Nat; a negative one is refused by `Nat.validate`. */
  lemma {:induction false} LitNatTyping(ctx: Ctx, n: Int32)
    ensures n >= 0 ==> Infer(ctx, TLitNat(n)) == Ok(Nat)
    ensures n < 0 ==> Infer(ctx, TLitNat(n)) == Err(UnsupportedType("expected nat"))
  {
  }

  // ---------------------------------------------------------------------------
  // The lambda's slot plan (`TLam.compile`)
  // ---------------------------------------------------------------------------

  /** The index of the last occurrence of x in xs, or -1 (`indexOfLast`). */
  function LastIndex<X(==)>(xs: seq<X>, x: X): (i: int)
    ensures -1 <= i < |xs|
    ensures i >= 0 <==> x in xs
    ensures i >= 0 ==> xs[i] == x && x !in xs[i + 1..]
  {
    if |xs| == 0 then -1
    else if xs[|xs| - 1] == x then |xs| - 1
    else
      var i := LastIndex(xs[..|xs| - 1], x);
      assert xs[..|xs| - 1] + [xs[|xs| - 1]] == xs;
      i
  }

  /** The first k free variables that are not parameters: those the closure must capture, in order. */
  function Captured(fvs: seq<string>, params: seq<string>, k: nat): seq<string>
    requires k <= |fvs|
  {
    if k == 0 then []
    else Captured(fvs, params, k - 1) + (if fvs[k - 1] in params then [] else [fvs[k - 1]])
  }

  /** Where the body reads a free variable from: a captured environment slot or an argument index. */
  datatype Source = FromEnv(closureSlot: nat) | FromArg(argIndex: int)

  /**
   * Body slot i holds fvs[i]. A captured name reads the next closure slot; a
   * parameter reads its last parameter index, one further along when the
   * closure has an environment (argument 0).
   */
  function Entry(fvs: seq<string>, params: seq<string>, captures: bool, i: nat): Source
    requires i < |fvs|
  {
    var ix := LastIndex(params, fvs[i]);
    if ix == -1 then FromEnv(|Captured(fvs, params, i)|)
    else FromArg(if captures then ix + 1 else ix)
  }

  /** The environment preamble for the first k body slots: (body slot, closure slot) per captured name. */
  function EnvPreamble(fvs: seq<string>, params: seq<string>, k: nat): seq<(nat, nat)>
    requires k <= |fvs|
  {
    if k == 0 then [] else EnvPreamble(fvs, params, k - 1) + EnvStep(fvs, params, k - 1)
  }

  function EnvStep(fvs: seq<string>, params: seq<string>, i: nat): (r: seq<(nat, nat)>)
    requires i < |fvs|
  {
    if LastIndex(params, fvs[i]) == -1 then [(i, |Captured(fvs, params, i)|)] else []
  }

  /** The argument preamble for the first k body slots: (body slot, argument index) per parameter. */
  function ArgPreamble(fvs: seq<string>, params: seq<string>, captures: bool, k: nat): seq<(nat, int)>
    requires k <= |fvs|
  {
    if k == 0 then [] else ArgPreamble(fvs, params, captures, k - 1) + ArgStep(fvs, params, captures, k - 1)
  }

  function ArgStep(fvs: seq<string>, params: seq<string>, captures: bool, i: nat): (r: seq<(nat, int)>)
    requires i < |fvs|
  {
    var ix := LastIndex(params, fvs[i]);
    if ix == -1 then [] else [(i, if captures then ix + 1 else ix)]
  }

  /** Each step's entries describe body slot i as the plan does. */
  lemma {:induction false} StepsFollowPlan(fvs: seq<string>, params: seq<string>, captures: bool, i: nat)
    requires i < |fvs|
    ensures forall p :: p in EnvStep(fvs, params, i) ==> p.0 == i && Entry(fvs, params, captures, i) == FromEnv(p.1)
    ensures forall p :: p in ArgStep(fvs, params, captures, i) ==> p.0 == i && Entry(fvs, params, captures, i) == FromArg(p.1)
    ensures |EnvStep(fvs, params, i)| + |ArgStep(fvs, params, captures, i)| == 1
    ensures |EnvStep(fvs, params, i)| == |Captured(fvs, params, i + 1)| - |Captured(fvs, params, i)|
  {
    StepLengths(fvs, params, captures, i);
  }

  /** An environment entry of step `i` describes body slot `i`. */
  lemma {:induction false} EnvEntryFollows(fvs: seq<string>, params: seq<string>, captures: bool, i: nat, p: (nat, nat))
    requires i < |fvs| && p in EnvStep(fvs, params, i)
    ensures p.0 == i && Entry(fvs, params, captures, i) == FromEnv(p.1)
  {
    assert LastIndex(params, fvs[i]) == -1;
  }

  /** An argument entry of step `i` describes body slot `i`. */
  lemma {:induction false} ArgEntryFollows(fvs: seq<string>, params: seq<string>, captures: bool, i: nat, p: (nat, int))
    requires i < |fvs| && p in ArgStep(fvs, params, captures, i)
    ensures p.0 == i && Entry(fvs, params, captures, i) == FromArg(p.1)
  {
    assert LastIndex(params, fvs[i]) != -1;
  }

  /** A step writes one entry, and an environment entry exactly when it captures a name. */
  lemma {:induction false} StepLengths(fvs: seq<string>, params: seq<string>, captures: bool, i: nat)
    requires i < |fvs|
    ensures |EnvStep(fvs, params, i)| + |ArgStep(fvs, params, captures, i)| == 1
    ensures |EnvStep(fvs, params, i)| == |Captured(fvs, params, i + 1)| - |Captured(fvs, params, i)|
  {
    var ix := LastIndex(params, fvs[i]);
    assert ix == -1 <==> fvs[i] !in params;
  }

  /**
   * The preambles follow the plan: every body slot is filled exactly once,
   * a captured name from the next closure slot, a parameter from its last
   * argument index (shifted past the environment when there is one).
   */
  lemma {:induction false} PreamblesFollowPlan(fvs: seq<string>, params: seq<string>, captures: bool, k: nat)
    requires k <= |fvs|
    ensures |EnvPreamble(fvs, params, k)| == |Captured(fvs, params, k)|
    ensures |EnvPreamble(fvs, params, k)| + |ArgPreamble(fvs, params, captures, k)| == k
    ensures forall p :: p in EnvPreamble(fvs, params, k) ==> p.0 < k && Entry(fvs, params, captures, p.0) == FromEnv(p.1)
    ensures forall p :: p in ArgPreamble(fvs, params, captures, k) ==> p.0 < k && Entry(fvs, params, captures, p.0) == FromArg(p.1)
  {
    PreambleLengths(fvs, params, captures, k);
    var e, a := EnvPreamble(fvs, params, k), ArgPreamble(fvs, params, captures, k);
    forall p | p in e ensures p.0 < k && Entry(fvs, params, captures, p.0) == FromEnv(p.1) {
      EnvPreambleFollows(fvs, params, captures, k);
      var j :| 0 <= j < |e| && e[j] == p;
    }
    forall p | p in a ensures p.0 < k && Entry(fvs, params, captures, p.0) == FromArg(p.1) {
      ArgPreambleFollows(fvs, params, captures, k);
      var j :| 0 <= j < |a| && a[j] == p;
    }
  }

  lemma {:induction false} PreambleLengths(fvs: seq<string>, params: seq<string>, captures: bool, k: nat)
    requires k <= |fvs|
    ensures |EnvPreamble(fvs, params, k)| == |Captured(fvs, params, k)|
    ensures |EnvPreamble(fvs, params, k)| + |ArgPreamble(fvs, params, captures, k)| == k
  {
    if k > 0 {
      PreambleLengths(fvs, params, captures, k - 1);
      StepLengths(fvs, params, captures, k - 1);
    }
  }

  lemma {:induction false} EnvPreambleFollows(fvs: seq<string>, params: seq<string>, captures: bool, k: nat)
    requires k <= |fvs|
    ensures forall j :: 0 <= j < |EnvPreamble(fvs, params, k)| ==>
      EnvPreamble(fvs, params, k)[j].0 < k
      && Entry(fvs, params, captures, EnvPreamble(fvs, params, k)[j].0) == FromEnv(EnvPreamble(fvs, params, k)[j].1)
  {
    if k > 0 {
      EnvPreambleFollows(fvs, params, captures, k - 1);
      var before, step := EnvPreamble(fvs, params, k - 1), EnvStep(fvs, params, k - 1);
      var e := EnvPreamble(fvs, params, k);
      assert e == before + step;
      forall j | 0 <= j < |e|
        ensures e[j].0 < k && Entry(fvs, params, captures, e[j].0) == FromEnv(e[j].1)
      {
        if j < |before| {
          assert e[j] == before[j];
        } else {
          assert e[j] == step[j - |before|];
          EnvEntryFollows(fvs, params, captures, k - 1, e[j]);
        }
      }
    }
  }

  lemma {:induction false} ArgPreambleFollows(fvs: seq<string>, params: seq<string>, captures: bool, k: nat)
    requires k <= |fvs|
    ensures forall j :: 0 <= j < |ArgPreamble(fvs, params, captures, k)| ==>
      ArgPreamble(fvs, params, captures, k)[j].0 < k
      && Entry(fvs, params, captures, ArgPreamble(fvs, params, captures, k)[j].0) == FromArg(ArgPreamble(fvs, params, captures, k)[j].1)
  {
    if k > 0 {
      ArgPreambleFollows(fvs, params, captures, k - 1);
      var before, step := ArgPreamble(fvs, params, captures, k - 1), ArgStep(fvs, params, captures, k - 1);
      var a := ArgPreamble(fvs, params, captures, k);
      assert a == before + step;
      forall j | 0 <= j < |a|
        ensures a[j].0 < k && Entry(fvs, params, captures, a[j].0) == FromArg(a[j].1)
      {
        if j < |before| {
          assert a[j] == before[j];
        } else {
          assert a[j] == step[j - |before|];
          ArgEntryFollows(fvs, params, captures, k - 1, a[j]);
        }
      }
    }
  }

  /** The closure captures something exactly when some free variable is not a parameter. */
  lemma {:induction false} CapturesIffEnvPreamble(fvs: seq<string>, params: seq<string>, k: nat)
    requires k <= |fvs|
    ensures |Captured(fvs, params, k)| > 0 <==> exists i :: 0 <= i < k && fvs[i] !in params
  {
    if k > 0 {
      CapturesIffEnvPreamble(fvs, params, k - 1);
      if fvs[k - 1] !in params {
        assert Captured(fvs, params, k) == Captured(fvs, params, k - 1) + [fvs[k - 1]];
      }
    }
  }

  /** One more body slot extends the captures and exactly one of the preambles. */
  lemma {:induction false} PlanAdvance(fvs: seq<string>, params: seq<string>, captures: bool, k: nat)
    requires k < |fvs|
    ensures var ix := LastIndex(params, fvs[k]);
      ix == -1 ==>
        && Captured(fvs, params, k + 1) == Captured(fvs, params, k) + [fvs[k]]
        && EnvPreamble(fvs, params, k + 1) == EnvPreamble(fvs, params, k) + [(k, |Captured(fvs, params, k)|)]
        && ArgPreamble(fvs, params, captures, k + 1) == ArgPreamble(fvs, params, captures, k)
    ensures var ix := LastIndex(params, fvs[k]);
      ix != -1 ==>
        && Captured(fvs, params, k + 1) == Captured(fvs, params, k)
        && EnvPreamble(fvs, params, k + 1) == EnvPreamble(fvs, params, k)
        && ArgPreamble(fvs, params, captures, k + 1)
          == ArgPreamble(fvs, params, captures, k) + [(k, if captures then ix + 1 else ix)]
  {
    var ix := LastIndex(params, fvs[k]);
    assert ix == -1 <==> fvs[k] !in params;
    assert Captured(fvs, params, k + 1) == Captured(fvs, params, k) + (if fvs[k] in params then [] else [fvs[k]]);
    assert EnvPreamble(fvs, params, k + 1) == EnvPreamble(fvs, params, k) + EnvStep(fvs, params, k);
    assert ArgPreamble(fvs, params, captures, k + 1) == ArgPreamble(fvs, params, captures, k) + ArgStep(fvs, params, captures, k);
    if ix == -1 {
      assert EnvStep(fvs, params, k) == [(k, |Captured(fvs, params, k)|)];
      assert ArgStep(fvs, params, captures, k) == [];
    } else {
      assert EnvStep(fvs, params, k) == [];
      assert ArgStep(fvs, params, captures, k) == [(k, if captures then ix + 1 else ix)];
    }
  }

  /**
   * `TLam.compile`'s loop over the body's free variables: it fills the
   * closure's capture list and the body frame's environment and argument
   * preambles (pairs of body slot and source index), as the plan says.
   */
  method PlanSlots(fvs: seq<string>, params: seq<string>, captures: bool)
    returns (closureCaptures: seq<string>, envPreamble: seq<(nat, nat)>, argPreamble: seq<(nat, int)>)
    ensures closureCaptures == Captured(fvs, params, |fvs|)
    ensures envPreamble == EnvPreamble(fvs, params, |fvs|)
    ensures argPreamble == ArgPreamble(fvs, params, captures, |fvs|)
  {
    closureCaptures, envPreamble, argPreamble := [], [], [];
    var k := 0;
    while k < |fvs|
      invariant 0 <= k <= |fvs|
      invariant closureCaptures == Captured(fvs, params, k)
      invariant envPreamble == EnvPreamble(fvs, params, k)
      invariant argPreamble == ArgPreamble(fvs, params, captures, k)
    {
      closureCaptures, envPreamble, argPreamble := PlanStep(fvs, params, captures, k, closureCaptures, envPreamble, argPreamble);
      k := k + 1;
    }
  }

  /**
   * One turn of that loop: the free variable at body slot `k` is read from
   * the next environment slot when it is not a parameter, and otherwise from
   * its last position among the arguments, shifted past the environment.
   */
  method PlanStep(fvs: seq<string>, params: seq<string>, captures: bool, k: nat,
                  closureCaptures: seq<string>, envPreamble: seq<(nat, nat)>, argPreamble: seq<(nat, int)>)
    returns (closureCaptures': seq<string>, envPreamble': seq<(nat, nat)>, argPreamble': seq<(nat, int)>)
    requires k < |fvs|
    requires closureCaptures == Captured(fvs, params, k)
    requires envPreamble == EnvPreamble(fvs, params, k)
    requires argPreamble == ArgPreamble(fvs, params, captures, k)
    ensures closureCaptures' == Captured(fvs, params, k + 1)
    ensures envPreamble' == EnvPreamble(fvs, params, k + 1)
    ensures argPreamble' == ArgPreamble(fvs, params, captures, k + 1)
  {
    closureCaptures', envPreamble', argPreamble' := closureCaptures, envPreamble, argPreamble;
    var name := fvs[k];
    var ix := LastIndex(params, name);
    PlanAdvance(fvs, params, captures, k);
    if ix == -1 {
      var closureSlot := |closureCaptures|;
      closureCaptures' := closureCaptures + [name];
      envPreamble' := envPreamble + [(k, closureSlot)];
    } else {
      argPreamble' := argPreamble + [(k, if captures then ix + 1 else ix)];
    }
  }

  /**
   * `TLam.compile`'s slot planning: the closure has an environment exactly
   * when some free variable is not a parameter, and then the environment
   * preamble is not empty.
   */
  method CompileLam(names: seq<(string, Type)>, fvs: seq<string>)
    returns (captures: bool, closureCaptures: seq<string>, envPreamble: seq<(nat, nat)>, argPreamble: seq<(nat, int)>)
    ensures captures <==> exists i :: 0 <= i < |fvs| && fvs[i] !in Firsts(names)
    ensures captures <==> |envPreamble| > 0
    ensures closureCaptures == Captured(fvs, Firsts(names), |fvs|)
    ensures envPreamble == EnvPreamble(fvs, Firsts(names), |fvs|)
    ensures argPreamble == ArgPreamble(fvs, Firsts(names), captures, |fvs|)
  {
    var params := Firsts(names);
    captures := exists i :: 0 <= i < |fvs| && fvs[i] !in params;
    closureCaptures, envPreamble, argPreamble := PlanSlots(fvs, params, captures);
    PreambleLengths(fvs, params, captures, |fvs|);
    CapturesIffEnvPreamble(fvs, params, |fvs|);
  }
}

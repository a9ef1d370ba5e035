/**
 * The builtin operations (src/cadenza/jit/builtin.kt): Nat comparison and
 * arithmetic with Int-overflow promotion, the Nat fixpoint, and the initial
 * typing context that binds them.
 */
module Builtins {
  import opened Wrappers
  import opened Types
  import opened BigInts
  import opened Values
  import opened Nbe
  import opened Closures
  import opened Envs

  const NatF: Type := Arr(Nat, Nat)
  const NatFF: Type := Arr(NatF, NatF)

  /** The declared type of each builtin; each curried arity equals the builtin's own arity. */
  function BuiltinType(b: BuiltinId): (t: Type)
    ensures Arity(t) == BuiltinArity(b)
  {
    match b
    case Le => Arr(Nat, Arr(Nat, Bool))
    case Eq => Arr(Nat, Arr(Nat, Bool))
    case FixNatF => Arr(NatFF, NatF)
    case FixNatF1(_) => NatF
    case PrintId => NatF
    case _ => Arr(Nat, Arr(Nat, Nat))
  }

  /** Builtin2 subclasses take two arguments, Builtin1 subclasses one. */
  function BuiltinArity(b: BuiltinId): nat
  {
    if b.FixNatF1? || b.PrintId? then 1 else 2
  }

  // ---------------------------------------------------------------------------
  // 32-bit arithmetic
  // ---------------------------------------------------------------------------

  const TwoTo32: int := 0x1_0000_0000

  predicate InInt(x: int) { -0x8000_0000 <= x < 0x8000_0000 }

  /** Two's-complement wrap-around of a mathematical integer into an Int. */
  function Wrap32(x: int): (r: Int32)
    ensures (r - x) % TwoTo32 == 0
    ensures InInt(x) ==> r == x
  {
    var m := (x + 0x8000_0000) % TwoTo32;
    m - 0x8000_0000
  }

  function Abs(x: int): nat { if x < 0 then -x else x }

  /** Java/Kotlin integer division: the quotient is truncated toward zero. */
  function TruncDiv(x: int, y: int): (q: int)
    requires y != 0
  {
    var q := Abs(x) / Abs(y);
    if (x < 0) == (y < 0) then q else -q
  }

  /** Java/Kotlin `rem`: the remainder takes the sign of the dividend. */
  function TruncRem(x: int, y: int): (r: int)
    requires y != 0
    ensures TruncDiv(x, y) * y + r == x
    ensures Abs(r) < Abs(y)
    ensures r != 0 ==> (r < 0 <==> x < 0)
  {
    var r := Abs(x) % Abs(y);
    var q := Abs(x) / Abs(y);
    assert q * Abs(y) + r == Abs(x);
    if x < 0 then -r else r
  }

  /** Integer-valued values: the number an Int or BigInt stands for. */
  function NumberOf(v: Value): Option<int>
  {
    if v.VPrim? && v.p.PInt? then Some(v.p.i)
    else if v.VPrim? && v.p.PBig? then Some(v.p.big.value)
    else None
  }

  /** An exact operation that overflows Int is retried on BigInts (Int implicitly cast). */
  function ExactOrBig(l: Value, r: Value, exact: int): (v: Result<Value, Fault>)
    requires NumberOf(l).Some? && NumberOf(r).Some?
    ensures v.Ok? && NumberOf(v.value) == Some(exact)
    ensures v.value.VPrim? && (v.value.p.PInt? <==> l.p.PInt? && r.p.PInt? && InInt(exact))
  {
    if l.p.PInt? && r.p.PInt? && InInt(exact) then Ok(Int(exact))
    else Ok(VPrim(PBig(BigInt(exact))))
  }

  /** A Builtin2 applied to its two arguments (`execute(left, right)`); only Int operands specialise unless noted. */
  function Binary(b: BuiltinId, l: Value, r: Value): (v: Result<Value, Fault>)
    requires BuiltinArity(b) == 2 && !b.FixNatF?
    ensures v.Ok? ==> v.value.VPrim?
    ensures !(l.VPrim? && r.VPrim?) ==> v == Err(UnsupportedSpecialization)
  {
    var li := l.VPrim? && l.p.PInt?;
    var ri := r.VPrim? && r.p.PInt?;
    match b
    case Le => if li && ri then Ok(Boolean(l.p.i <= r.p.i)) else Err(UnsupportedSpecialization)
    case Eq => if li && ri then Ok(Boolean(l.p.i == r.p.i)) else Err(UnsupportedSpecialization)
    case Plus =>
      if NumberOf(l).Some? && NumberOf(r).Some? then ExactOrBig(l, r, NumberOf(l).value + NumberOf(r).value)
      else Err(UnsupportedSpecialization)
    case Minus =>
      if NumberOf(l).Some? && NumberOf(r).Some? then ExactOrBig(l, r, NumberOf(l).value - NumberOf(r).value)
      else Err(UnsupportedSpecialization)
    case Mult => if li && ri then Ok(Int(Wrap32(l.p.i * r.p.i))) else Err(UnsupportedSpecialization)
    case Div =>
      if !(li && ri) then Err(UnsupportedSpecialization)
      else if r.p.i == 0 then Err(ArithmeticError("/ by zero"))
      else Ok(Int(Wrap32(TruncDiv(l.p.i, r.p.i))))
    case Mod =>
      if !(li && ri) then Err(UnsupportedSpecialization)
      else if r.p.i == 0 then Err(ArithmeticError("/ by zero"))
      else Ok(Int(Wrap32(TruncRem(l.p.i, r.p.i))))
  }

  /** `plus` and `minus` compute the mathematical result; it stays an Int exactly when both operands are Ints and it fits. */
  lemma {:induction false} PlusMinusExact(l: Value, r: Value)
    requires NumberOf(l).Some? && NumberOf(r).Some?
    ensures var s := Binary(Plus, l, r);
      s.Ok? && NumberOf(s.value) == Some(NumberOf(l).value + NumberOf(r).value)
      && (s.value.p.PInt? <==> l.p.PInt? && r.p.PInt? && InInt(NumberOf(l).value + NumberOf(r).value))
    ensures var d := Binary(Minus, l, r);
      d.Ok? && NumberOf(d.value) == Some(NumberOf(l).value - NumberOf(r).value)
  {
  }

  /** Nothing keeps `minus` natural: 1 - 2 is -1. */
  lemma {:induction false} MinusLeavesNat()
    ensures Binary(Minus, Int(1), Int(2)) == Ok(Int(-1))
  {
  }

  /** The truncated quotient of two Ints is an Int, except for MinInt / -1. */
  lemma {:induction false} TruncDivInRange(x: Int32, y: Int32)
    requires y != 0 && !(x == -0x8000_0000 && y == -1)
    ensures InInt(TruncDiv(x, y))
  {
    var a, b := Abs(x), Abs(y);
    if b == 1 {
      assert a / b == a;
    } else {
      QuotientHalves(a, b);
    }
  }

  /** Dividing by at least two at most halves. */
  lemma {:induction false} QuotientHalves(a: nat, b: nat)
    requires b >= 2
    ensures a / b * 2 <= a
  {
    var q, r := a / b, a % b;
    assert a == b * q + r && 0 <= r;
    AtLeastTwice(q, b);
  }

  lemma {:induction false} AtLeastTwice(q: nat, b: nat)
    requires b >= 2
    ensures q * 2 <= b * q
    decreases q
  {
    if q > 0 {
      AtLeastTwice(q - 1, b);
      assert b * q == b * (q - 1) + b;
    }
  }

  /** `mult` wraps modulo 2^32. */
  lemma {:induction false} MultWraps(x: Int32, y: Int32)
    ensures Binary(Mult, Int(x), Int(y)).Ok?
    ensures (Binary(Mult, Int(x), Int(y)).value.p.i - x * y) % TwoTo32 == 0
  {
  }

  /** `div`/`mod` raise on a zero divisor, and otherwise truncate so that q*y + r == x (barring MinInt / -1). */
  lemma {:induction false} DivModTruncate(x: Int32, y: Int32)
    ensures y == 0 ==> Binary(Div, Int(x), Int(y)).Err? && Binary(Mod, Int(x), Int(y)).Err?
    ensures y != 0 && !(x == -0x8000_0000 && y == -1) ==>
      Binary(Div, Int(x), Int(y)).value.p.i * y + Binary(Mod, Int(x), Int(y)).value.p.i == x
  {
    if y != 0 && !(x == -0x8000_0000 && y == -1) {
      TruncDivInRange(x, y);
      var q := TruncDiv(x, y);
      var r := TruncRem(x, y);
      assert InInt(r);
      assert Binary(Div, Int(x), Int(y)).value.p.i == q;
      assert Binary(Mod, Int(x), Int(y)).value.p.i == r;
    }
  }

  /** The closure through which `fixNatF f` refers to itself: a 1-ary Nat -> Nat closure over a builtin root. */
  function SelfClosure(f: Closure): (c: Closure)
    ensures WellFormed(c) && c.arity == 1 && ClosureType(c) == Some(NatF)
    ensures c.target == BuiltinBody(FixNatF1(f)) && c.env.None? && c.papArgs == []
  {
    Closure(None, [], 1, NatF, BuiltinBody(FixNatF1(f)))
  }

  /**
   * Running a builtin on its argument vector (`run`): a Builtin2 routes args[0]
   * and args[1], a Builtin1 routes args[0]; a short vector is an index error.
   * `fixNatF f x` calls f on the self closure and x.
   */
  function Run(invoke: Invoke, b: BuiltinId, args: seq<Value>, fuel: nat): (o: Outcome)
    ensures |args| < BuiltinArity(b) ==> o == Failed(IndexOutOfBounds)
  {
    if |args| < BuiltinArity(b) then Failed(IndexOutOfBounds)
    else match b
      case FixNatF =>
        (match args[0]
         case VClosure(f) => Apply(invoke, f, [VClosure(SelfClosure(f)), args[1]], fuel)
         case _ => Failed(UnsupportedSpecialization))
      case FixNatF1(f) => Apply(invoke, f, [VClosure(SelfClosure(f)), args[0]], fuel)
      case PrintId => Done(args[0])
      case _ =>
        match Binary(b, args[0], args[1])
        case Ok(v) => Done(v)
        case Err(e) => Failed(e)
  }

  /** Builtins leak no tag miss when the call targets do not. */
  lemma {:induction false} RunNoTagMiss(invoke: Invoke, b: BuiltinId, args: seq<Value>, fuel: nat)
    requires NoTagMiss(invoke)
    ensures !Run(invoke, b, args, fuel).Unexpected?
  {
    if |args| >= BuiltinArity(b) {
      match b
      case FixNatF =>
        if args[0].VClosure? {
          ApplyNoTagMiss(invoke, args[0].c, [VClosure(SelfClosure(args[0].c)), args[1]], fuel);
        }
      case FixNatF1(f) =>
        ApplyNoTagMiss(invoke, f, [VClosure(SelfClosure(f)), args[0]], fuel);
      case _ =>
    }
  }

  /** Builtin2 routing: only the first two arguments matter. */
  lemma {:induction false} RunRoutes(invoke: Invoke, b: BuiltinId, args: seq<Value>, fuel: nat)
    requires BuiltinArity(b) == 2 && |args| >= 2
    ensures Run(invoke, b, args, fuel) == Run(invoke, b, args[..2], fuel)
  {
  }

  /** `fixNatF f x = f (fixNatF f) x`, and the fixpoint closure re-enters FixNatF1 for the same f. */
  lemma {:induction false} FixUnfolds(invoke: Invoke, f: Closure, x: Value, fuel: nat)
    ensures Run(invoke, FixNatF, [VClosure(f), x], fuel) == Apply(invoke, f, [VClosure(SelfClosure(f)), x], fuel)
    ensures Run(invoke, FixNatF1(f), [x], fuel) == Run(invoke, FixNatF, [VClosure(f), x], fuel)
  {
  }

  /** `printId` returns its argument unchanged. */
  lemma {:induction false} PrintIdIdentity(invoke: Invoke, x: Value, fuel: nat)
    ensures Run(invoke, PrintId, [x], fuel) == Done(x)
  {
  }

  // ---------------------------------------------------------------------------
  // Initial context
  // ---------------------------------------------------------------------------

  /** What the type checker knows about a name: its type and, for a builtin, the builtin. */
  datatype NameInfo = NameInfo(ty: Type, builtin: Option<BuiltinId>)

  type Ctx = Env<NameInfo>

  const InitialBindings: seq<(string, BuiltinId)> := [
    ("le", Le), ("fixNatF", FixNatF), ("plus", Plus), ("minus", Minus), ("eq", Eq),
    ("mod", Mod), ("div", Div), ("mult", Mult), ("printId", PrintId)]

  function Info(b: BuiltinId): NameInfo { NameInfo(BuiltinType(b), Some(b)) }

  /** The left fold that conses each binding onto the context built so far. */
  function FoldBindings(bs: seq<(string, BuiltinId)>, acc: Ctx): Ctx
    decreases |bs|
  {
    if |bs| == 0 then acc
    else FoldBindings(bs[1..], Cons(bs[0].0, Info(bs[0].1), acc))
  }

  /** `initialCtx`: the fold over the nine bindings. */
  function InitialCtx(): Ctx
  {
    FoldBindings(InitialBindings, Nil)
  }

  /** The fold leaves the last listed binding at the head: the context, cell by cell. */
  lemma {:induction false} InitialCtxCells()
    ensures InitialCtx() ==
      Cons("printId", Info(PrintId), Cons("mult", Info(Mult), Cons("div", Info(Div),
      Cons("mod", Info(Mod), Cons("eq", Info(Eq), Cons("minus", Info(Minus),
      Cons("plus", Info(Plus), Cons("fixNatF", Info(FixNatF), Cons("le", Info(Le), Nil)))))))))
  {
    var bs := InitialBindings;
    var e1 := Cons("le", Info(Le), Nil);
    var e2 := Cons("fixNatF", Info(FixNatF), e1);
    var e3 := Cons("plus", Info(Plus), e2);
    var e4 := Cons("minus", Info(Minus), e3);
    var e5 := Cons("eq", Info(Eq), e4);
    var e6 := Cons("mod", Info(Mod), e5);
    var e7 := Cons("div", Info(Div), e6);
    var e8 := Cons("mult", Info(Mult), e7);
    var e9 := Cons("printId", Info(PrintId), e8);
    assert FoldBindings(bs, Nil) == FoldBindings(bs[1..], e1);
    assert FoldBindings(bs[1..], e1) == FoldBindings(bs[2..], e2);
    assert FoldBindings(bs[2..], e2) == FoldBindings(bs[3..], e3);
    assert FoldBindings(bs[3..], e3) == FoldBindings(bs[4..], e4);
    assert FoldBindings(bs[4..], e4) == FoldBindings(bs[5..], e5);
    assert FoldBindings(bs[5..], e5) == FoldBindings(bs[6..], e6);
    assert FoldBindings(bs[6..], e6) == FoldBindings(bs[7..], e7);
    assert FoldBindings(bs[7..], e7) == FoldBindings(bs[8..], e8);
    assert FoldBindings(bs[8..], e8) == FoldBindings(bs[9..], e9);
  }

  /** Names bound by none of the bindings are looked up in the starting context. */
  lemma {:induction false} FoldAbsent(bs: seq<(string, BuiltinId)>, acc: Ctx, n: string)
    requires forall j :: 0 <= j < |bs| ==> bs[j].0 != n
    ensures Find(FoldBindings(bs, acc), n) == Find(acc, n)
    decreases |bs|
  {
    if |bs| > 0 {
      FoldAbsent(bs[1..], Cons(bs[0].0, Info(bs[0].1), acc), n);
    }
  }

  /** With distinct names, each binding of the fold resolves to its own builtin. */
  lemma {:induction false} FoldFind(bs: seq<(string, BuiltinId)>, acc: Ctx, i: nat)
    requires i < |bs|
    requires forall j, k :: 0 <= j < k < |bs| ==> bs[j].0 != bs[k].0
    ensures Find(FoldBindings(bs, acc), bs[i].0) == Ok(Info(bs[i].1))
    decreases |bs|
  {
    var acc' := Cons(bs[0].0, Info(bs[0].1), acc);
    if i == 0 {
      FoldAbsent(bs[1..], acc', bs[0].0);
    } else {
      FoldFind(bs[1..], acc', i - 1);
    }
  }

  /** Every builtin name resolves to its own type and builtin. */
  lemma {:induction false} InitialCtxBindings()
    ensures forall i :: 0 <= i < |InitialBindings| ==>
      Find(InitialCtx(), InitialBindings[i].0) == Ok(Info(InitialBindings[i].1))
  {
    InitialNamesDistinct();
    forall i | 0 <= i < |InitialBindings|
      ensures Find(InitialCtx(), InitialBindings[i].0) == Ok(Info(InitialBindings[i].1))
    {
      FoldFind(InitialBindings, Nil, i);
    }
  }

  /** The nine builtin names are distinct: no two have the same length and first letter. */
  lemma {:induction false} InitialNamesDistinct()
    ensures forall j, k :: 0 <= j < k < |InitialBindings| ==> InitialBindings[j].0 != InitialBindings[k].0
  {
    var bs := InitialBindings;
    forall j, k | 0 <= j < k < |bs|
      ensures bs[j].0 != bs[k].0
    {
      var a, b := bs[j].0, bs[k].0;
      assert |a| != |b| || a[0] != b[0];
    }
  }
}

/**
 * Normalisation by evaluation (src/cadenza/data/nbe.kt): neutral terms, the
 * stuck signal NeutralException and the NeutralValue that carries one.
 */
module Nbe {
  import opened Wrappers
  import opened Types
  import opened Values

  /**
   * How an execute variant of the JIT ends: a value, a stuck computation
   * (NeutralException), a tag miss (UnexpectedResultException) or a fault.
   */
  datatype Outcome =
    | Done(value: Value)
    | Stuck(ty: Type, term: Neutral)
    | Unexpected(value: Value)
    | Failed(fault: Fault)

  /** `Neutral.apply`: applying an NApp extends its operands; any other term is wrapped. */
  function NApply(n: Neutral, args: seq<Value>): (r: Neutral)
    ensures r.NApp?
    ensures !n.NApp? ==> r == NApp(n, args)
    ensures n.NApp? ==> r.rator == n.rator && r.rands == n.rands + args
  {
    match n
    case NApp(rator, rands) => NApp(rator, rands + args)
    case _ => NApp(n, args)
  }

  /** Applications flatten: applying twice is applying once to all the operands. */
  lemma {:induction false} NApplyFlatten(n: Neutral, a: seq<Value>, b: seq<Value>)
    ensures NApply(NApply(n, a), b) == NApply(n, a + b)
  {
    if n.NApp? {
      assert n.rands + a + b == n.rands + (a + b);
    }
  }

  /** NApp equality is the same operator and element-wise equal operands. */
  lemma {:induction false} NAppEquality(r1: Neutral, a1: seq<Value>, r2: Neutral, a2: seq<Value>)
    ensures NApp(r1, a1) == NApp(r2, a2) <==>
      r1 == r2 && |a1| == |a2| && forall i :: 0 <= i < |a1| ==> a1[i] == a2[i]
  {
    if r1 == r2 && |a1| == |a2| && forall i :: 0 <= i < |a1| ==> a1[i] == a2[i] {
      assert a1 == a2;
    }
  }

  /** `NeutralException.get`: the NeutralValue carrying the same type and term. */
  function Get(e: Outcome): (v: Value)
    requires e.Stuck?
    ensures v.VNeutral? && v.ty == e.ty && v.term == e.term
  {
    VNeutral(e.ty, e.term)
  }

  /** `NeutralValue.raise`: the stuck signal with the same type and term. */
  function Raise(v: Value): (e: Outcome)
    requires v.VNeutral?
    ensures e.Stuck? && e.ty == v.ty && e.term == v.term
  {
    Stuck(v.ty, v.term)
  }

  /** `raise` and `get` are inverse. */
  lemma {:induction false} RaiseGet(e: Outcome, v: Value)
    requires e.Stuck? && v.VNeutral?
    ensures Raise(Get(e)) == e
    ensures Get(Raise(v)) == v
  {
  }

  /** `throwIfNeutralValue`: identity on ordinary values, raising on neutral ones. */
  function ThrowIfNeutralValue(v: Value): (r: Outcome)
    ensures !v.VNeutral? ==> r == Done(v)
    ensures v.VNeutral? ==> r == Raise(v)
  {
    if v.VNeutral? then Raise(v) else Done(v)
  }

  /**
   * The specification of `NeutralException.apply(rands)`: stuck again, with
   * |rands| arrows removed from the type and the operands appended to the term,
   * or a failed cast when the type has fewer arrows.
   */
  function StuckApply(ty: Type, term: Neutral, rands: seq<Value>): (r: Outcome)
    ensures r.Stuck? <==> |rands| <= Arity(ty)
    ensures r.Stuck? ==> Some(r.ty) == Peel(ty, |rands|) && r.term == NApply(term, rands)
    ensures r.Stuck? ==> Arity(r.ty) == Arity(ty) - |rands|
    ensures !r.Stuck? ==> r == Failed(ClassCast)
  {
    PeelArity(ty, |rands|);
    match Peel(ty, |rands|)
    case Some(t) => Stuck(t, NApply(term, rands))
    case None => Failed(ClassCast)
  }

  /** `NeutralException.apply`: the cast loop over the operands, then raise. */
  method ApplyStuck(ty: Type, term: Neutral, rands: seq<Value>) returns (r: Outcome)
    ensures r == StuckApply(ty, term, rands)
  {
    var currentType := ty;
    var i := 0;
    while i < |rands|
      invariant 0 <= i <= |rands|
      invariant Peel(ty, i) == Some(currentType)
    {
      PeelStep(ty, i);
      if !currentType.Arr? {
        NoPeelBeyond(ty, i + 1, |rands|);
        return Failed(ClassCast);
      }
      currentType := currentType.result;
      i := i + 1;
    }
    return Stuck(currentType, NApply(term, rands));
  }

  /**
   * `NeutralValue.execute` (interop): with at most `arity` arguments it returns a
   * NeutralValue of the peeled type; otherwise ArityException(i, k) where i is the
   * first index at which the type is no longer an arrow, which is the arity.
   */
  method ExecuteNeutral(ty: Type, term: Neutral, args: seq<Value>) returns (r: Result<Value, Fault>)
    ensures |args| <= Arity(ty) ==>
      (r.Ok? && r.value.VNeutral? && Some(r.value.ty) == Peel(ty, |args|) && r.value.term == NApply(term, args))
    ensures |args| > Arity(ty) ==> r == Err(ArityError(Arity(ty), |args|))
  {
    PeelArity(ty, |args|);
    var resultType := ty;
    var i := 0;
    while i < |args|
      invariant 0 <= i <= |args|
      invariant Peel(ty, i) == Some(resultType)
      invariant i <= Arity(ty)
      invariant Arity(resultType) == Arity(ty) - i
    {
      PeelArity(ty, i);
      if !resultType.Arr? {
        return Err(ArityError(i, |args|));
      }
      PeelStep(ty, i);
      resultType := resultType.result;
      i := i + 1;
    }
    return Ok(VNeutral(resultType, NApply(term, args)));
  }

  /** `NeutralValue.apply`: assumes a legal call, so too many arguments is a failed cast. */
  method ApplyNeutralValue(ty: Type, term: Neutral, args: seq<Value>) returns (r: Result<Value, Fault>)
    ensures |args| <= Arity(ty) ==> r.Ok? && r.value == Get(StuckApply(ty, term, args))
    ensures |args| > Arity(ty) ==> r == Err(ClassCast)
  {
    var stuck := ApplyStuck(ty, term, args);
    if stuck.Stuck? {
      return Ok(Get(stuck));
    }
    return Err(ClassCast);
  }
}

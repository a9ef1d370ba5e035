/**
 * Environments as singly linked association lists (src/cadenza/semantics/env.kt):
 * a lookup returns the value of the head-most cell with the requested name.
 */
module Envs {
  import opened Wrappers
  import opened Types

  /** `Env<T>`: NilEnv (null) or a ConsEnv cell. */
  datatype Env<T> = Nil | Cons(name: string, value: T, next: Env<T>)

  function Names<T>(e: Env<T>): seq<string>
  {
    if e.Nil? then [] else [e.name] + Names(e.next)
  }

  function Vals<T>(e: Env<T>): (vs: seq<T>)
    ensures |vs| == |Names(e)|
  {
    if e.Nil? then [] else [e.value] + Vals(e.next)
  }

  /** The index of the first occurrence of x in xs. */
  function FirstIndex<X(==)>(xs: seq<X>, x: X): (i: nat)
    requires x in xs
    ensures i < |xs| && xs[i] == x && x !in xs[..i]
  {
    if xs[0] == x then 0 else 1 + FirstIndex(xs[1..], x)
  }

  /** What `lookup` computes: the head-most match, or TypeError when the name is bound nowhere. */
  function Find<T>(e: Env<T>, name: string): Result<T, Fault>
  {
    match e
    case Nil => Err(TypeError("unknown variable " + name, None, None))
    case Cons(n, v, next) => if n == name then Ok(v) else Find(next, name)
  }

  /**
   * `lookup` succeeds exactly for names bound in some cell, returns the value of
   * the first (head-most) such cell, and otherwise raises TypeError.
   */
  lemma {:induction false} FindFirstMatch<T>(e: Env<T>, name: string)
    ensures Find(e, name).Ok? <==> name in Names(e)
    ensures Find(e, name).Ok? ==> Find(e, name).value == Vals(e)[FirstIndex(Names(e), name)]
    ensures Find(e, name).Err? ==> Find(e, name).error == TypeError("unknown variable " + name, None, None)
  {
    match e
    case Nil =>
    case Cons(n, v, next) =>
      FindFirstMatch(next, name);
      if n != name {
        assert Names(e)[1..] == Names(next);
      }
  }

  /** Shadowing: a cell binding the name hides everything behind it. */
  lemma {:induction false} FindShadow<T>(name: string, v: T, e: Env<T>)
    ensures Find(Cons(name, v, e), name) == Ok(v)
  {
  }

  /** A head cell with a different name is skipped. */
  lemma {:induction false} FindSkip<T>(n: string, v: T, e: Env<T>, name: string)
    requires n != name
    ensures Find(Cons(n, v, e), name) == Find(e, name)
  {
  }

  /** `lookup`: walk the cells with a loop until the name matches. */
  method Lookup<T>(e: Env<T>, name: string) returns (r: Result<T, Fault>)
    ensures r == Find(e, name)
    ensures r.Ok? <==> name in Names(e)
    ensures r.Ok? ==> r.value == Vals(e)[FirstIndex(Names(e), name)]
  {
    FindFirstMatch(e, name);
    var current := e;
    while current.Cons?
      invariant Find(current, name) == Find(e, name)
      decreases current
    {
      if name == current.name {
        return Ok(current.value);
      }
      current := current.next;
    }
    return Err(TypeError("unknown variable " + name, None, None));
  }
}

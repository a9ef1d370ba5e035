/**
 * The concrete syntax of cadenza terms (src/cadenza/syntax/parser.kt),
 * written with the combinators of `Parsers`: types `Nat -> … -> Nat`,
 * identifiers, numerals, lambdas, conditionals, lets and applications. Each
 * token is followed by the whitespace after it. Source ranges are computed
 * by the source but terms here do not keep them.
 *
 * A rule that calls `grammar` again only does so after consuming input; the
 * nested call checks that it starts further into the same input, which is
 * what makes the recursion terminate (a call that did not would recurse
 * forever, and is reported as an endless loop).
 */
module Grammar {
  import opened Wrappers
  import opened Types
  import opened Parsers
  import Terms

  /** `reserved`: the words `ident` refuses. */
  const Reserved: seq<string> := ["if", "then", "else", "Nat", "=", "in"]

  /** `Char.isLetter`, on the ASCII letters. */
  predicate IsLetter(c: char)
  {
    'a' <= c <= 'z' || 'A' <= c <= 'Z'
  }

  /** `Char.isDigit`, on the ASCII digits. */
  predicate IsDigit(c: char)
  {
    '0' <= c <= '9'
  }

  /** `Char.isWhitespace`, on the ASCII characters. */
  predicate IsWhitespace(c: char)
  {
    c == ' ' || '\t' <= c <= '\r' || '\U{1C}' <= c <= '\U{1F}'
  }

  /** `space`: skip any whitespace. */
  function Space(input: seq<char>, s: State): Run<seq<char>>
  {
    Many(SatisfyP(IsWhitespace), input, s)
  }

  /** `token(f)`: run `f`, then skip the whitespace after it. */
  function Token<A>(f: Parser<A>, input: seq<char>, s: State): Run<A>
  {
    var a := f(input, s);
    if !a.out.Done? then Forward(a)
    else
      var sp := Space(input, a.after);
      if !sp.out.Done? then Forward(sp) else Run(Done(a.out.value), sp.after)
  }

  /** `tok(x)`: the text `x` as a token. */
  function Tok(x: string, input: seq<char>, s: State): Run<string>
  {
    Token(StringP(x), input, s)
  }

  /** `tok(x)` over the `string` as written, which needs some input after `x`. */
  function TokAsWritten(x: string, input: seq<char>, s: State): Run<string>
  {
    Token(StringAsWrittenP(x), input, s)
  }

  /** `parens(f)`: `f` between "(" and ")" tokens. */
  function Parens<A>(f: Parser<A>, input: seq<char>, s: State): Run<A>
  {
    var open := Tok("(", input, s);
    if !open.out.Done? then Forward(open)
    else
      var x := f(input, open.after);
      if !x.out.Done? then Forward(x)
      else
        var close := Tok(")", input, x.after);
        if !close.out.Done? then Forward(close) else Run(Done(x.out.value), close.after)
  }

  /** The body of `ident`: letters that do not spell a reserved word. */
  function IdentBody(input: seq<char>, s: State): Run<string>
  {
    var xs := SomeOf(SatisfyP(IsLetter), input, s);
    if !xs.out.Done? then Forward(xs)
    else if xs.out.value in Reserved then Fail(xs.after, Some("reserved ident " + xs.out.value))
    else Run(Done(xs.out.value), xs.after)
  }

  /** `ident`: `IdentBody` under `trying("ident")`, so any failure goes back to the start. */
  function Ident(input: seq<char>, s: State): Run<string>
  {
    Trying(IText("ident"), (i, t) => IdentBody(i, t), input, s)
  }

  /** The value of a decimal digit. */
  function DigitValue(c: char): nat
  {
    if IsDigit(c) then c as int - '0' as int else 0
  }

  /** The number a string of decimal digits spells. */
  function Decimal(ds: seq<char>): nat
  {
    if ds == [] then 0 else 10 * Decimal(ds[..|ds| - 1]) + DigitValue(ds[|ds| - 1])
  }

  /** `lit`: one or more digits read with `toInt`, which throws when the number does not fit an Int. */
  function Lit(input: seq<char>, s: State): Run<Terms.Term>
  {
    var ds := SomeOf(SatisfyP(IsDigit), input, s);
    if !ds.out.Done? then Forward(ds)
    else if Decimal(ds.out.value) < 0x8000_0000 then Run(Done(Terms.TLitNat(Decimal(ds.out.value))), ds.after)
    else Run(Escaped(Escape.NumberFormat), ds.after)
  }

  /** `type`: "Nat", optionally followed by "->" and a type, nesting to the right. */
  function TypeRule(input: seq<char>, s: State): Run<Type>
    decreases |input| - s.pos, 2
  {
    var x := Choice([NatAlt()], input, s);
    if !x.out.Done? then Forward(x)
    else Choice([ArrowAlt(input, s.pos, x.out.value), Pure(x.out.value)], input, x.after)
  }

  /** The alternative `tok("Nat"); Type.Nat`. */
  function NatType(input: seq<char>, s: State): Run<Type>
  {
    var n := Tok("Nat", input, s);
    if n.out.Done? then Run(Done(Nat), n.after) else Forward(n)
  }

  function NatAlt(): Parser<Type> { (i, t) => NatType(i, t) }

  /** The alternative `tok("->"); Type.Arr(x, type)` of a type that began at `start`. */
  function ArrowTail(input: seq<char>, start: nat, dom: Type, i: seq<char>, s: State): Run<Type>
    decreases |input| - start, 0
  {
    var arrow := Tok("->", i, s);
    if !arrow.out.Done? then Forward(arrow)
    else if !(i == input && start < arrow.after.pos <= |input|) then Run(Escaped(Escape.EndlessLoop), arrow.after)
    else
      var cod := TypeRule(i, arrow.after);
      if cod.out.Done? then Run(Done(Arr(dom, cod.out.value)), cod.after) else Forward(cod)
  }

  function ArrowAlt(input: seq<char>, start: nat, dom: Type): Parser<Type>
    decreases |input| - start, 1
  {
    (i, t) => ArrowTail(input, start, dom, i, t)
  }

  /** One binder `(name : type)` of a lambda. */
  function Binder(input: seq<char>, s: State): Run<(string, Type)>
  {
    Parens((i, t) => BinderBody(i, t), input, s)
  }

  function BinderBody(input: seq<char>, s: State): Run<(string, Type)>
  {
    var x := Token((i, t) => Ident(i, t), input, s);
    if !x.out.Done? then Forward(x)
    else
      var colon := Tok(":", input, x.after);
      if !colon.out.Done? then Forward(colon)
      else
        var ty := TypeRule(input, colon.after);
        if ty.out.Done? then Run(Done((x.out.value, ty.out.value)), ty.after) else Forward(ty)
  }

  /** `tele`: one or more binders. */
  function Tele(input: seq<char>, s: State): (r: Run<seq<(string, Type)>>)
    ensures r.out.Done? ==> |r.out.value| >= 1
  {
    var binder := (i, t) => Binder(i, t);
    SomeOfLeads(binder, input, s);
    SomeOf(binder, input, s)
  }

  /** `grammar`: a lambda, a conditional, a let, or an application, tried in that order. */
  function Term(input: seq<char>, s: State): Run<Terms.Term>
    decreases |input| - s.pos, 3
  {
    Choice([
      (i, t) => LamAlt(input, s.pos, i, t),
      (i, t) => IfAlt(input, s.pos, i, t),
      (i, t) => LetAlt(input, s.pos, i, t),
      (i, t) => AppAlt(input, s.pos, i, t)], input, s)
  }

  /** `grammar` again, from inside a term that began at `start`. */
  function Nested(input: seq<char>, start: nat, i: seq<char>, s: State): Run<Terms.Term>
    decreases |input| - start, 0
  {
    if i == input && start < s.pos <= |input| then Term(i, s) else Run(Escaped(Escape.EndlessLoop), s)
  }

  /** `\(x : T) … -> body`. */
  function LamAlt(input: seq<char>, start: nat, i: seq<char>, s: State): Run<Terms.Term>
    decreases |input| - start, 1
  {
    var bs := Char(i, s, '\\');
    if !bs.out.Done? then Forward(bs)
    else
      var tele := Tele(i, bs.after);
      if !tele.out.Done? then Forward(tele)
      else
        var arrow := Tok("->", i, tele.after);
        if !arrow.out.Done? then Forward(arrow)
        else
          var body := Nested(input, start, i, arrow.after);
          if !body.out.Done? then Forward(body)
          else Run(Done(Terms.TLam(tele.out.value, body.out.value)), body.after)
  }

  /** `if c then t else e`. */
  function IfAlt(input: seq<char>, start: nat, i: seq<char>, s: State): Run<Terms.Term>
    decreases |input| - start, 1
  {
    var kw := Tok("if", i, s);
    if !kw.out.Done? then Forward(kw)
    else
      var c := Nested(input, start, i, kw.after);
      if !c.out.Done? then Forward(c)
      else
        var kwThen := Tok("then", i, c.after);
        if !kwThen.out.Done? then Forward(kwThen)
        else
          var t := Nested(input, start, i, kwThen.after);
          if !t.out.Done? then Forward(t)
          else
            var kwElse := Tok("else", i, t.after);
            if !kwElse.out.Done? then Forward(kwElse)
            else
              var e := Nested(input, start, i, kwElse.after);
              if !e.out.Done? then Forward(e)
              else Run(Done(Terms.TIf(c.out.value, t.out.value, e.out.value)), e.after)
  }

  /** `let x : T = v in b`. */
  function LetAlt(input: seq<char>, start: nat, i: seq<char>, s: State): Run<Terms.Term>
    decreases |input| - start, 1
  {
    var kw := Tok("let", i, s);
    if !kw.out.Done? then Forward(kw)
    else
      var nm := Token((i', t) => Ident(i', t), i, kw.after);
      if !nm.out.Done? then Forward(nm)
      else
        var colon := Tok(":", i, nm.after);
        if !colon.out.Done? then Forward(colon)
        else
          var ty := TypeRule(i, colon.after);
          if !ty.out.Done? then Forward(ty)
          else
            var eq := Tok("=", i, ty.after);
            if !eq.out.Done? then Forward(eq)
            else
              var vl := Nested(input, start, i, eq.after);
              if !vl.out.Done? then Forward(vl)
              else
                var kwIn := Tok("in", i, vl.after);
                if !kwIn.out.Done? then Forward(kwIn)
                else
                  var bd := Nested(input, start, i, kwIn.after);
                  if !bd.out.Done? then Forward(bd)
                  else Run(Done(Terms.TLet(nm.out.value, ty.out.value, vl.out.value, bd.out.value)), bd.after)
  }

  /** One operand: a parenthesised term, a variable, or a numeral. */
  function Atom(input: seq<char>, start: nat, i: seq<char>, s: State): Run<Terms.Term>
    decreases |input| - start, 1
  {
    Choice([
      (i', t) => Parens((i'', t') => Nested(input, start, i'', t'), i', t),
      (i', t) => VarAtom(i', t),
      (i', t) => Token((i'', t') => Lit(i'', t'), i', t)], i, s)
  }

  /** A variable operand: `token { ident }` as `TVar`. */
  function VarAtom(input: seq<char>, s: State): Run<Terms.Term>
  {
    var x := Token((i, t) => Ident(i, t), input, s);
    if x.out.Done? then Run(Done(Terms.TVar(x.out.value)), x.after) else Forward(x)
  }

  /** One or more operands: a single one is the term itself, more are an application of the first to the rest. */
  function AppAlt(input: seq<char>, start: nat, i: seq<char>, s: State): Run<Terms.Term>
    decreases |input| - start, 2
  {
    var xs := SomeOf((i', t) => Atom(input, start, i', t), i, s);
    if !xs.out.Done? then Forward(xs)
    else
      SomeOfLeads((i', t) => Atom(input, start, i', t), i, s);
      Run(Done(Applied(xs.out.value)), xs.after)
  }

  /** The term a non-empty run of operands stands for. */
  function Applied(xs: seq<Terms.Term>): (t: Terms.Term)
    requires xs != []
    ensures |xs| == 1 ==> t == xs[0]
    ensures |xs| > 1 ==> t.TApp? && t.trator == xs[0] && t.trands == xs[1..]
  {
    if |xs| == 1 then xs[0] else Terms.TApp(xs[0], xs[1..])
  }
}

module GrammarFacts {
  import opened Wrappers
  import opened Types
  import opened Parsers
  import opened Grammar
  import opened Parsing
  import Terms

  /** `space` takes the run of whitespace and nothing else. */
  lemma {:induction false} SpaceSkips(input: seq<char>, s: State)
    requires s.pos <= |input|
    ensures var k := Span(input, s.pos, IsWhitespace);
      Space(input, s) == Run(Done(input[s.pos..s.pos + k]), MoveTo(s, s.pos + k))
  {
    ManySatisfy(input, s, IsWhitespace, []);
    assert [] + input[s.pos..s.pos + Span(input, s.pos, IsWhitespace)] == input[s.pos..s.pos + Span(input, s.pos, IsWhitespace)];
  }

  /**
   * `tok(x)` consumes `x` and the whitespace after it when the input
   * continues with `x`, and otherwise expects `x` without moving.
   */
  lemma {:induction false} TokMatches(x: string, input: seq<char>, s: State)
    requires s.pos <= |input|
    ensures StartsWith(input, s.pos, x) ==>
      Tok(x, input, s).out == Done(x) &&
      Tok(x, input, s).after.pos == s.pos + |x| + Span(input, s.pos + |x|, IsWhitespace)
    ensures !StartsWith(input, s.pos, x) ==> Tok(x, input, s) == Expect(s, IText(x))
  {
    var a := String(input, s, x);
    assert StringP(x)(input, s) == a;
    if a.out.Done? {
      var t := a.after;
      assert t.pos == s.pos + |x|;
      SpaceSkips(input, t);
      var sp := Space(input, t);
      assert sp.out.Done? && sp.after.pos == t.pos + Span(input, t.pos, IsWhitespace);
      assert Tok(x, input, s) == Run(Done(x), sp.after);
    } else {
      assert Tok(x, input, s) == Forward(a);
    }
  }

  /**
   * `ident` takes the longest run of letters unless that run is empty or a
   * reserved word; then it fails at the start, without moving, having
   * recorded that an identifier was expected.
   */
  lemma {:induction false} IdentWord(input: seq<char>, s: State)
    requires s.pos <= |input|
    ensures var k := Span(input, s.pos, IsLetter);
      var w := input[s.pos..s.pos + k];
      Ident(input, s) ==
        if k == 0 || w in Reserved then Run(Thrown(ParseError(s.pos, None)), State(s.pos, Expected(IText("ident"), s.expects)))
        else Run(Done(w), State(s.pos + k, NoExpects))
  {
    var t := State(s.pos, NoExpects);
    var k := Span(input, s.pos, IsLetter);
    var w := input[s.pos..s.pos + k];
    SomeSatisfy(input, t, IsLetter);
    var body := IdentBody(input, t);
    assert body.out.Done? <==> k != 0 && w !in Reserved;
    assert body.out.Done? ==> body == Run(Done(w), State(s.pos + k, NoExpects));
  }

  /** `lit` fails without moving where no digit follows. */
  lemma {:induction false} LitNoDigits(input: seq<char>, s: State)
    requires s.pos <= |input| && Span(input, s.pos, IsDigit) == 0
    ensures Lit(input, s) == Fail(s, None)
  {
    SomeSatisfy(input, s, IsDigit);
  }

  /**
   * `lit` takes the longest run of digits: a number that fits a 32-bit Int
   * is a literal, and a larger one makes `toInt` throw.
   */
  lemma {:induction false} LitDigits(input: seq<char>, s: State, k: nat, n: nat)
    requires s.pos <= |input|
    requires k == Span(input, s.pos, IsDigit) && k > 0
    requires n == Decimal(input[s.pos..s.pos + k])
    ensures n < 0x8000_0000 ==> Lit(input, s) == Run(Done(Terms.TLitNat(n)), State(s.pos + k, NoExpects))
    ensures n >= 0x8000_0000 ==> Lit(input, s) == Run(Escaped(Escape.NumberFormat), State(s.pos + k, NoExpects))
  {
    SomeSatisfy(input, s, IsDigit);
    var ds := SomeOf(SatisfyP(IsDigit), input, s);
    assert ds == Run(Done(input[s.pos..s.pos + k]), State(s.pos + k, NoExpects));
  }

  /** Reading a numeral gives back the number it was written from. */
  lemma {:induction false} DecimalNumeral(n: nat)
    ensures Decimal(Numeral(n)) == n
  {
    var ds := Numeral(n);
    if n >= 10 {
      DecimalNumeral(n / 10);
      assert ds[..|ds| - 1] == Numeral(n / 10);
      assert DigitValue(ds[|ds| - 1]) == n % 10;
    } else {
      assert ds[..0] == [];
      assert DigitValue(ds[0]) == n;
    }
  }

  /** A run of `pred` characters ending the input or followed by one that is not is exactly what `Span` measures. */
  lemma {:induction false} SpanIs(input: seq<char>, p: nat, k: nat, pred: char -> bool)
    requires p + k <= |input|
    requires forall i :: p <= i < p + k ==> pred(input[i])
    requires p + k == |input| || !pred(input[p + k])
    ensures Span(input, p, pred) == k
  {
  }

  /** The numeral of a number below 2^31, not followed by a digit, is read back as that literal. */
  lemma {:induction false} LitNumeral(n: nat, input: seq<char>, s: State)
    requires n < 0x8000_0000
    requires StartsWith(input, s.pos, Numeral(n))
    requires var e := s.pos + |Numeral(n)|; e == |input| || !IsDigit(input[e])
    ensures Lit(input, s) == Run(Done(Terms.TLitNat(n)), State(s.pos + |Numeral(n)|, NoExpects))
  {
    var k := |Numeral(n)|;
    NumeralSpan(n, input, s);
    DecimalNumeral(n);
    LitDigits(input, s, k, n);
  }

  /** The digits of a numeral followed by a non-digit are the run `lit` takes. */
  lemma {:induction false} NumeralSpan(n: nat, input: seq<char>, s: State)
    requires StartsWith(input, s.pos, Numeral(n))
    requires var e := s.pos + |Numeral(n)|; e == |input| || !IsDigit(input[e])
    ensures Span(input, s.pos, IsDigit) == |Numeral(n)| && input[s.pos..s.pos + |Numeral(n)|] == Numeral(n)
  {
    var ds := Numeral(n);
    assert forall i :: 0 <= i < |ds| ==> IsDigit(ds[i]);
    SpanOfWord(input, s.pos, ds, IsDigit);
  }

  /** A word of `pred` characters, ending the input or followed by one that is not, is what `Span` measures there. */
  lemma {:induction false} SpanOfWord(input: seq<char>, p: nat, w: string, pred: char -> bool)
    requires StartsWith(input, p, w)
    requires forall i :: 0 <= i < |w| ==> pred(w[i])
    requires p + |w| == |input| || !pred(input[p + |w|])
    ensures Span(input, p, pred) == |w| && input[p..p + |w|] == w
  {
    forall i | p <= i < p + |w|
      ensures pred(input[i])
    {
      assert input[i] == w[i - p];
    }
    SpanIs(input, p, |w|, pred);
  }

  /** A type built from `Nat` and arrows whose arguments are all `Nat`. */
  predicate NatChain(t: Type)
  {
    t == Nat || (t.Arr? && t.argument == Nat && NatChain(t.result))
  }

  /** How such a type is written: `Nat -> Nat -> … -> Nat`. */
  function ShowChain(t: Type): string
    requires NatChain(t)
  {
    if t.Arr? then "Nat -> " + ShowChain(t.result) else "Nat"
  }

  /** A written type ends in "Nat". */
  lemma {:induction false} ShowChainEnds(t: Type)
    requires NatChain(t)
    ensures |ShowChain(t)| >= 3 && ShowChain(t)[|ShowChain(t)| - 3..] == "Nat"
    ensures ShowChain(t)[..3] == "Nat"
  {
    if t.Arr? {
      ShowChainEnds(t.result);
      var r := ShowChain(t.result);
      assert ShowChain(t)[|ShowChain(t)| - 3..] == r[|r| - 3..];
    }
  }

  /**
   * How `type` continues after "Nat": an arrow that parses gives its result;
   * one that fails where it began gives back the `Nat` read so far.
   */
  lemma {:induction false} TypeRuleSteps(input: seq<char>, s: State)
    ensures var n := NatType(input, s);
      n.out.Done? ==>
        var arrow := ArrowTail(input, s.pos, Nat, input, n.after);
        (arrow.out.Done? ==> TypeRule(input, s) == arrow) &&
        (arrow.out.Thrown? && arrow.out.error.pos == n.after.pos ==> TypeRule(input, s) == Run(Done(Nat), arrow.after))
  {
    var n := NatType(input, s);
    if n.out.Done? {
      assert NatAlt()(input, s) == n;
      assert Choice([NatAlt()], input, s) == n;
      var alts := [ArrowAlt(input, s.pos, Nat), Pure(Nat)];
      var arrow := ArrowTail(input, s.pos, Nat, input, n.after);
      assert TypeRule(input, s) == ChoiceFrom(alts, n.after.pos, input, n.after);
      assert alts[0](input, n.after) == arrow;
      if arrow.out.Thrown? && arrow.out.error.pos == n.after.pos {
        assert alts[1..] == [Pure(Nat)];
        assert ChoiceFrom(alts, n.after.pos, input, n.after) == ChoiceFrom([Pure(Nat)], n.after.pos, input, arrow.after);
        assert Pure(Nat)(input, arrow.after) == Run(Done(Nat), arrow.after);
      }
    }
  }

  /**
   * The written `tok` agrees with the one the grammar uses while some input
   * follows the token, and refuses a token that ends the input.
   */
  lemma {:induction false} TokAsWrittenNeedsMoreInput(x: string, input: seq<char>, s: State)
    requires s.pos <= |input|
    ensures TokAsWritten(x, input, s) == if s.pos + |x| < |input| then Tok(x, input, s) else Expect(s, IText(x))
  {
    StringAsWrittenNeedsMoreInput(input, s, x);
    assert StringAsWrittenP(x)(input, s) == StringAsWritten(input, s, x);
    assert StringP(x)(input, s) == String(input, s, x);
  }

  /** With the written `tok`, a type "Nat" that ends the input is refused; the grammar reads it. */
  lemma {:induction false} TokAsWrittenRefusesFinalNat()
    ensures TokAsWritten("Nat", "Nat", State(0, NoExpects)) == Expect(State(0, NoExpects), IText("Nat"))
    ensures TypeRule("Nat", State(0, NoExpects)).out == Done(Nat)
  {
    TokAsWrittenNeedsMoreInput("Nat", "Nat", State(0, NoExpects));
    assert StartsWith("Nat", 0, "Nat");
    TypeNatEnd("Nat", State(0, NoExpects));
  }

  /** "Nat" followed by `k` blanks is read as `Nat`, stopping after the blanks. */
  lemma {:induction false} NatWord(input: seq<char>, s: State, k: nat)
    requires StartsWith(input, s.pos, "Nat")
    requires Span(input, s.pos + 3, IsWhitespace) == k
    ensures NatType(input, s).out == Done(Nat) && NatType(input, s).after.pos == s.pos + 3 + k
  {
    TokMatches("Nat", input, s);
  }

  /** "-> " before a type is read as an arrow, stopping at the type. */
  lemma {:induction false} ArrowWord(input: seq<char>, s: State)
    requires StartsWith(input, s.pos, "-> ") && s.pos + 3 < |input| && input[s.pos + 3] == 'N'
    ensures Tok("->", input, s).out.Done? && Tok("->", input, s).after.pos == s.pos + 3
  {
    assert input[s.pos..s.pos + 2] == input[s.pos..s.pos + 3][..2];
    TokMatches("->", input, s);
    assert Span(input, s.pos + 2, IsWhitespace) == 1;
  }

  /** "Nat" not followed by blanks or an arrow is the type `Nat`. */
  lemma {:induction false} TypeNatEnd(input: seq<char>, s: State)
    requires StartsWith(input, s.pos, "Nat")
    requires var e := s.pos + 3; e == |input| || (!IsWhitespace(input[e]) && input[e] != '-')
    ensures TypeRule(input, s).out == Done(Nat) && TypeRule(input, s).after.pos == s.pos + 3
  {
    var e := s.pos + 3;
    assert Span(input, e, IsWhitespace) == 0;
    NatWord(input, s, 0);
    var n := NatType(input, s);
    TokMatches("->", input, n.after);
    assert !StartsWith(input, e, "->");
    TypeRuleSteps(input, s);
  }

  /** "Nat -> " is read as `Nat` up to the arrow. */
  lemma {:induction false} NatBlank(input: seq<char>, s: State)
    requires StartsWith(input, s.pos, "Nat -> ")
    ensures NatType(input, s).out == Done(Nat) && NatType(input, s).after.pos == s.pos + 4
  {
    var p := s.pos;
    var w := input[p..p + 7];
    assert w == "Nat -> ";
    assert StartsWith(input, p, "Nat") by {
      assert input[p..p + 3] == w[..3] == "Nat";
    }
    assert input[p + 3] == w[3] == ' ' && input[p + 4] == w[4] == '-';
    assert Span(input, p + 3, IsWhitespace) == 1;
    NatWord(input, s, 1);
  }

  /** "Nat -> " followed by a type `r` is the type `Nat -> r`, ending where `r` ends. */
  lemma {:induction false} TypeArrowStep(input: seq<char>, s: State, r: Type)
    requires StartsWith(input, s.pos, "Nat -> ") && s.pos + 7 < |input| && input[s.pos + 7] == 'N'
    requires TypeRule(input, State(s.pos + 7, NoExpects)).out == Done(r)
    ensures TypeRule(input, s).out == Done(Arr(Nat, r))
    ensures TypeRule(input, s).after == TypeRule(input, State(s.pos + 7, NoExpects)).after
  {
    var p := s.pos;
    NatBlank(input, s);
    var n := NatType(input, s);
    assert StartsWith(input, p + 4, "-> ") by {
      assert input[p + 4..p + 7] == input[p..p + 7][4..];
    }
    ArrowWord(input, n.after);
    TypeRuleSteps(input, s);
  }

  /**
   * A written chain type, not followed by whitespace or '-', is read back as
   * that type, and reading stops right after it.
   */
  lemma {:induction false} TypeChain(t: Type, input: seq<char>, s: State)
    requires NatChain(t)
    requires StartsWith(input, s.pos, ShowChain(t))
    requires var e := s.pos + |ShowChain(t)|; e == |input| || (!IsWhitespace(input[e]) && input[e] != '-')
    ensures TypeRule(input, s).out == Done(t)
    ensures TypeRule(input, s).after.pos == s.pos + |ShowChain(t)|
    decreases t
  {
    if t.Arr? {
      ChainSplits(t, input, s.pos);
      TypeChain(t.result, input, State(s.pos + 7, NoExpects));
      TypeArrowStep(input, s, t.result);
    } else {
      TypeNatEnd(input, s);
    }
  }

  /** Where an arrow chain is written, "Nat -> " is written, and then the rest of the chain. */
  lemma {:induction false} ChainSplits(t: Type, input: seq<char>, p: nat)
    requires NatChain(t) && t.Arr?
    requires StartsWith(input, p, ShowChain(t))
    ensures |ShowChain(t)| == 7 + |ShowChain(t.result)|
    ensures StartsWith(input, p, "Nat -> ") && StartsWith(input, p + 7, ShowChain(t.result))
    ensures p + 7 < |input| && input[p + 7] == 'N'
  {
    var e := p + |ShowChain(t)|;
    var r := ShowChain(t.result);
    ShowChainEnds(t.result);
    assert ShowChain(t) == "Nat -> " + r;
    assert input[p..p + 7] == input[p..e][..7];
    assert input[p + 7..e] == input[p..e][7..];
    assert input[p + 7] == r[0];
  }

  /** A lambda starts with a backslash and binds one or more names. */
  lemma {:induction false} LamShape(input: seq<char>, start: nat, s: State)
    ensures var r := LamAlt(input, start, input, s);
      r.out.Done? ==> s.pos < |input| && input[s.pos] == '\\' && r.out.value.TLam? && |r.out.value.names| >= 1
  {
  }

  /** A conditional starts with the keyword `if` and gives `TIf`. */
  lemma {:induction false} IfShape(input: seq<char>, start: nat, s: State)
    requires s.pos <= |input|
    ensures var r := IfAlt(input, start, input, s);
      r.out.Done? ==> StartsWith(input, s.pos, "if") && r.out.value.TIf?
  {
    TokMatches("if", input, s);
  }

  /** A parsed conditional is made of the terms parsed after each of its keywords. */
  lemma {:induction false} IfParts(input: seq<char>, start: nat, s: State)
    requires start <= s.pos <= |input|
    ensures var r := IfAlt(input, start, input, s);
      r.out.Done? ==>
        var kw := Tok("if", input, s);
        var c := Term(input, kw.after);
        var kwThen := Tok("then", input, c.after);
        var t := Term(input, kwThen.after);
        var kwElse := Tok("else", input, t.after);
        var e := Term(input, kwElse.after);
        kw.out.Done? && c.out.Done? && kwThen.out.Done? && t.out.Done? && kwElse.out.Done? && e.out.Done?
        && r.out.value == Terms.TIf(c.out.value, t.out.value, e.out.value) && r.after == e.after
  {
    TokMatches("if", input, s);
  }

  /** A parsed lambda binds the telescope after the backslash over the term after the arrow. */
  lemma {:induction false} LamParts(input: seq<char>, start: nat, s: State)
    requires start <= s.pos
    ensures var r := LamAlt(input, start, input, s);
      r.out.Done? ==>
        var bs := Char(input, s, '\\');
        var tele := Tele(input, bs.after);
        var arrow := Tok("->", input, tele.after);
        var body := Term(input, arrow.after);
        bs.out.Done? && tele.out.Done? && arrow.out.Done? && body.out.Done?
        && r.out.value == Terms.TLam(tele.out.value, body.out.value) && r.after == body.after
  {
  }

  /** A let starts with the keyword `let` and gives `TLet`. */
  lemma {:induction false} LetShape(input: seq<char>, start: nat, s: State)
    requires s.pos <= |input|
    ensures var r := LetAlt(input, start, input, s);
      r.out.Done? ==> StartsWith(input, s.pos, "let") && r.out.value.TLet?
  {
    TokMatches("let", input, s);
    LetKeyword(input, start, s);
  }

  lemma {:induction false} LetKeyword(input: seq<char>, start: nat, s: State)
    ensures var r := LetAlt(input, start, input, s);
      r.out.Done? ==> Tok("let", input, s).out.Done? && r.out.value.TLet?
  {
  }
}

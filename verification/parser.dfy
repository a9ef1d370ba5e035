/**
 * Parsec-style parser combinators over a mutable input position
 * (src/parser.kt). A parse state is the position reached in a fixed input and
 * the chain of expectations recorded at that position; moving to another
 * position forgets them. A parser returns a value, throws `Parse.Error` (a
 * position and an optional message), or never returns.
 *
 * Module `Parsers` gives each operation's meaning as a function from the
 * input and the state before to the outcome and the state after; module
 * `ParseObjects` runs the same operations on a mutable `Parse` object.
 */
module Parsers {
  import opened Wrappers

  /** What an expectation names: a character (`char`) or a text (`string`, "EOF", a rule name). */
  datatype Item = IChar(c: char) | IText(s: string)

  /** `Parse.Expected?`: a linked chain of expectations, the newest at the head. */
  datatype Chain = NoExpects | Expected(what: Item, next: Chain)

  /** `Parse.Error`: the position it reports and its optional message. */
  datatype ParseError = ParseError(pos: nat, message: Option<string>)

  /** Why a parser neither returned nor threw `Parse.Error`. */
  datatype Escape =
    | EndlessLoop   // a repetition whose item succeeds without consuming input, or a rule re-entered where it began
    | NumberFormat  // `toInt` on a digit string too large for an Int

  datatype Outcome<+T> = Done(value: T) | Thrown(error: ParseError) | Escaped(why: Escape)

  /** The mutable part of a `Parse`: `pos` and `expects`. */
  datatype State = State(pos: nat, expects: Chain)

  /** What running a parser gives: its outcome and the state it leaves. */
  datatype Run<+T> = Run(out: Outcome<T>, after: State)

  /** `Parser<T>` (`Parse.() -> T`) over a fixed input. */
  type Parser<T> = (seq<char>, State) -> Run<T>

  /** `Loc.Range`: a start offset and a length. */
  datatype Loc = Range(start: int, size: int)

  /** An outcome that is not a value, carried over to another result type. */
  function Forward<T, U>(r: Run<T>): Run<U>
    requires !r.out.Done?
  {
    Run(if r.out.Thrown? then Thrown(r.out.error) else Escaped(r.out.why), r.after)
  }

  // ---------------------------------------------------------------------------
  // Expectations
  // ---------------------------------------------------------------------------

  /** `Expected?.toList` as a value: the expectations, oldest first. */
  function Items(c: Chain): seq<Item>
  {
    match c
    case NoExpects => []
    case Expected(w, n) => Items(n) + [w]
  }

  /** `Expected?.toList`: walk the chain, inserting each expectation at the front of the list. */
  method ToList(c: Chain) returns (out: seq<Item>)
    ensures out == Items(c)
  {
    out := [];
    var current := c;
    while current.Expected?
      invariant Items(c) == Items(current) + out
      decreases current
    {
      assert Items(current) + out == Items(current.next) + ([current.what] + out);
      out := [current.what] + out;
      current := current.next;
    }
  }

  /** Record each of `ws` in turn, the first one first. */
  function Push(c: Chain, ws: seq<Item>): Chain
    decreases |ws|
  {
    if ws == [] then c else Push(Expected(ws[0], c), ws[1..])
  }

  /** Expectations recorded one after another are listed in the order they were recorded. */
  lemma {:induction false} PushItems(c: Chain, ws: seq<Item>)
    ensures Items(Push(c, ws)) == Items(c) + ws
    decreases |ws|
  {
    if ws != [] {
      PushItems(Expected(ws[0], c), ws[1..]);
      assert Items(c) + [ws[0]] + ws[1..] == Items(c) + ws;
    }
  }

  // ---------------------------------------------------------------------------
  // Primitive parsers
  // ---------------------------------------------------------------------------

  /** The `pos` setter: a different position forgets the expectations, the same one keeps them. */
  function MoveTo(s: State, p: nat): State
  {
    if p == s.pos then s else State(p, NoExpects)
  }

  /** `expected(what)`: record the expectation and throw at the current position. */
  function Expect<T>(s: State, what: Item): Run<T>
  {
    Run(Thrown(ParseError(s.pos, None)), State(s.pos, Expected(what, s.expects)))
  }

  /** `fail(message)`: throw at the current position, recording nothing. */
  function Fail<T>(s: State, message: Option<string>): Run<T>
  {
    Run(Thrown(ParseError(s.pos, message)), s)
  }

  /** Does the input continue with `str` at position `p`? */
  predicate StartsWith(input: seq<char>, p: nat, str: string)
  {
    p + |str| <= |input| && input[p..p + |str|] == str
  }

  /** `eof`: succeed without moving exactly at the end of the input, otherwise expect "EOF". */
  function Eof(input: seq<char>, s: State): (r: Run<()>)
    ensures r.out.Done? <==> s.pos == |input|
    ensures r.out.Done? ==> r.after == s
    ensures !r.out.Done? ==> r == Expect(s, IText("EOF"))
  {
    if s.pos != |input| then Expect(s, IText("EOF")) else Run(Done(()), s)
  }

  /** `char(c)`: consume the next character if it is `c`, otherwise expect `c` without moving. */
  function Char(input: seq<char>, s: State, c: char): (r: Run<char>)
    ensures r.out.Done? <==> s.pos < |input| && input[s.pos] == c
    ensures r.out.Done? ==> r.out.value == c && r.after == State(s.pos + 1, NoExpects)
    ensures !r.out.Done? ==> r == Expect(s, IChar(c))
  {
    if s.pos >= |input| || c != input[s.pos] then Expect(s, IChar(c))
    else Run(Done(c), MoveTo(s, s.pos + 1))
  }

  /**
   * `string(s)` as written: the guard refuses the text unless some input
   * follows it (`pos + |s| >= length` fails), so a text that ends the input
   * is never matched.
   */
  function StringAsWritten(input: seq<char>, s: State, str: string): Run<string>
  {
    if s.pos + |str| >= |input| || input[s.pos..s.pos + |str|] != str then Expect(s, IText(str))
    else Run(Done(str), MoveTo(s, s.pos + |str|))
  }

  /** `string(s)` as intended: consume `str` exactly when the input continues with it. */
  function String(input: seq<char>, s: State, str: string): (r: Run<string>)
    ensures r.out.Done? <==> StartsWith(input, s.pos, str)
    ensures r.out.Done? ==> r.out.value == str && r.after == MoveTo(s, s.pos + |str|)
    ensures !r.out.Done? ==> r == Expect(s, IText(str))
  {
    if s.pos + |str| > |input| || input[s.pos..s.pos + |str|] != str then Expect(s, IText(str))
    else Run(Done(str), MoveTo(s, s.pos + |str|))
  }

  /** The written `string` agrees with the intended one except when the text would reach the end of the input. */
  lemma {:induction false} StringAsWrittenNeedsMoreInput(input: seq<char>, s: State, str: string)
    ensures StringAsWritten(input, s, str) ==
      if s.pos + |str| < |input| then String(input, s, str) else Expect(s, IText(str))
  {
  }

  /** The closing parenthesis of "(x)" is refused by the written `string` and accepted by the intended one. */
  lemma {:induction false} StringAsWrittenRefusesFinalToken()
    ensures StringAsWritten("(x)", State(2, NoExpects), ")") == Expect(State(2, NoExpects), IText(")"))
    ensures String("(x)", State(2, NoExpects), ")") == Run(Done(")"), State(3, NoExpects))
  {
    assert StartsWith("(x)", 2, ")");
  }

  /** `satisfy(p)`: consume the next character if it satisfies `p`, otherwise fail without moving. */
  function Satisfy(input: seq<char>, s: State, pred: char -> bool): (r: Run<char>)
    ensures r.out.Done? <==> s.pos < |input| && pred(input[s.pos])
    ensures r.out.Done? ==> r.out.value == input[s.pos] && r.after == State(s.pos + 1, NoExpects)
    ensures !r.out.Done? ==> r == Fail(s, None)
  {
    if s.pos >= |input| then Fail(s, None)
    else if !pred(input[s.pos]) then Fail(s, None)
    else Run(Done(input[s.pos]), MoveTo(s, s.pos + 1))
  }

  /** `next`: consume any character; at the end of the input expect "any character". */
  function Next(input: seq<char>, s: State): (r: Run<char>)
    ensures r.out.Done? <==> s.pos < |input|
    ensures r.out.Done? ==> r.out.value == input[s.pos] && r.after == State(s.pos + 1, NoExpects)
    ensures !r.out.Done? ==> r == Expect(s, IText("any character"))
  {
    if s.pos >= |input| then Expect(s, IText("any character"))
    else Run(Done(input[s.pos]), MoveTo(s, s.pos + 1))
  }

  function CharP(c: char): Parser<char> { (input, s) => Char(input, s, c) }
  function StringP(str: string): Parser<string> { (input, s) => String(input, s, str) }
  function StringAsWrittenP(str: string): Parser<string> { (input, s) => StringAsWritten(input, s, str) }
  function SatisfyP(pred: char -> bool): Parser<char> { (input, s) => Satisfy(input, s, pred) }
  function NextP(): Parser<char> { (input, s) => Next(input, s) }
  /** A block that only returns `x`, consuming nothing. */
  function Pure<T>(x: T): Parser<T> { (input, s) => Run(Done(x), s) }

  // ---------------------------------------------------------------------------
  // Combinators
  // ---------------------------------------------------------------------------

  /**
   * `trying(what, action)`: run the action with the expectations cleared; on
   * failure go back to the start, record `what` over the expectations held
   * before, and throw a plain error at the start.
   */
  function Trying<T>(what: Item, action: Parser<T>, input: seq<char>, s: State): (r: Run<T>)
    ensures action(input, State(s.pos, NoExpects)).out.Thrown? ==>
      r == Run(Thrown(ParseError(s.pos, None)), State(s.pos, Expected(what, s.expects)))
    ensures !action(input, State(s.pos, NoExpects)).out.Thrown? ==> r == action(input, State(s.pos, NoExpects))
  {
    var a := action(input, State(s.pos, NoExpects));
    if a.out.Thrown? then
      var back := MoveTo(a.after, s.pos);
      Run(Thrown(ParseError(s.pos, None)), State(back.pos, Expected(what, s.expects)))
    else a
  }

  /**
   * `named(what, action)`: run the action with the expectations cleared; a
   * failure reported at the start has the expectations gathered inside
   * replaced by `what` recorded over the ones held before.
   */
  function Named<T>(what: Item, action: Parser<T>, input: seq<char>, s: State): (r: Run<T>)
    ensures r.out == action(input, State(s.pos, NoExpects)).out
    ensures r.after.pos == action(input, State(s.pos, NoExpects)).after.pos
    ensures r.out.Thrown? && r.out.error.pos == s.pos ==> r.after.expects == Expected(what, s.expects)
    ensures !(r.out.Thrown? && r.out.error.pos == s.pos) ==> r == action(input, State(s.pos, NoExpects))
  {
    var a := action(input, State(s.pos, NoExpects));
    if a.out.Thrown? && a.out.error.pos == s.pos then Run(a.out, State(a.after.pos, Expected(what, s.expects)))
    else a
  }

  /** `choice` from the alternative `alts[0]` on, `start` being where the choice began. */
  function ChoiceFrom<T>(alts: seq<Parser<T>>, start: nat, input: seq<char>, s: State): Run<T>
    decreases |alts|
  {
    if alts == [] then Run(Thrown(ParseError(start, None)), s)
    else
      var a := alts[0](input, s);
      if a.out.Thrown? && a.out.error.pos == start then ChoiceFrom(alts[1..], start, input, a.after)
      else a
  }

  /**
   * `choice(alts)`: the first alternative that does not fail at the start
   * decides; when all fail there, a plain error at the start is thrown.
   */
  function Choice<T>(alts: seq<Parser<T>>, input: seq<char>, s: State): Run<T>
  {
    ChoiceFrom(alts, s.pos, input, s)
  }

  /** An alternative that succeeds, or fails after moving, is the choice's result. */
  lemma {:induction false} ChoiceCommits<T>(alts: seq<Parser<T>>, start: nat, input: seq<char>, s: State)
    requires alts != []
    requires !(alts[0](input, s).out.Thrown? && alts[0](input, s).out.error.pos == start)
    ensures ChoiceFrom(alts, start, input, s) == alts[0](input, s)
  {
  }

  /** An alternative that fails at the start hands over, with the state it left, to the next. */
  lemma {:induction false} ChoiceSkips<T>(alts: seq<Parser<T>>, start: nat, input: seq<char>, s: State)
    requires alts != []
    requires alts[0](input, s).out.Thrown? && alts[0](input, s).out.error.pos == start
    ensures ChoiceFrom(alts, start, input, s) == ChoiceFrom(alts[1..], start, input, alts[0](input, s).after)
  {
  }

  /**
   * A choice that fails at its start always throws the plain error of its own
   * last line: the messages of alternatives that failed there are dropped.
   */
  lemma {:induction false} ChoiceFailsPlainly<T>(alts: seq<Parser<T>>, start: nat, input: seq<char>, s: State)
    ensures var r := ChoiceFrom(alts, start, input, s);
      r.out.Thrown? && r.out.error.pos == start ==> r.out.error == ParseError(start, None)
    decreases |alts|
  {
    if alts != [] {
      var a := alts[0](input, s);
      if a.out.Thrown? && a.out.error.pos == start {
        ChoiceFailsPlainly(alts[1..], start, input, a.after);
      } else {
        assert ChoiceFrom(alts, start, input, s) == a;
      }
    }
  }

  /**
   * `many(item)` from state `s`, `acc` holding the items collected so far: an
   * item that fails at the position where it started ends the repetition
   * successfully, and any other failure propagates. An item that succeeds
   * without consuming input makes the source loop forever.
   */
  function ManyFrom<T>(item: Parser<T>, input: seq<char>, s: State, acc: seq<T>): Run<seq<T>>
    decreases |input| - s.pos
  {
    var a := item(input, s);
    match a.out
    case Thrown(e) => if e.pos == s.pos then Run(Done(acc), a.after) else Run(Thrown(e), a.after)
    case Escaped(w) => Run(Escaped(w), a.after)
    case Done(v) =>
      if s.pos < a.after.pos <= |input| then ManyFrom(item, input, a.after, acc + [v])
      else Run(Escaped(EndlessLoop), a.after)
  }

  /** Repetition only ever adds to what it has already collected. */
  lemma {:induction false} ManyKeepsPrefix<T>(item: Parser<T>, input: seq<char>, s: State, acc: seq<T>)
    ensures var r := ManyFrom(item, input, s, acc);
      r.out.Done? ==> |acc| <= |r.out.value| && r.out.value[..|acc|] == acc
    decreases |input| - s.pos
  {
    var a := item(input, s);
    if a.out.Done? && s.pos < a.after.pos <= |input| {
      ManyKeepsPrefix(item, input, a.after, acc + [a.out.value]);
      var r := ManyFrom(item, input, a.after, acc + [a.out.value]);
      if r.out.Done? {
        assert r.out.value[..|acc|] == r.out.value[..|acc| + 1][..|acc|];
      }
    }
  }

  function Many<T>(item: Parser<T>, input: seq<char>, s: State): Run<seq<T>>
  {
    ManyFrom(item, input, s, [])
  }

  /** `some(item)`: one item, then as `many`. */
  function SomeOf<T>(item: Parser<T>, input: seq<char>, s: State): Run<seq<T>>
  {
    var a := item(input, s);
    if a.out.Done? then ManyFrom(item, input, a.after, [a.out.value]) else Forward(a)
  }

  /** What `some` collects begins with the value of its first, required, item. */
  lemma {:induction false} SomeOfLeads<T>(item: Parser<T>, input: seq<char>, s: State)
    ensures var r := SomeOf(item, input, s);
      r.out.Done? ==> |r.out.value| >= 1 && item(input, s).out == Done(r.out.value[0])
  {
    var a := item(input, s);
    if a.out.Done? {
      ManyKeepsPrefix(item, input, a.after, [a.out.value]);
    }
  }

  /** `optional(item)`: no value when the item fails and the position did not move; other failures propagate. */
  function Optional<T>(item: Parser<T>, input: seq<char>, s: State): (r: Run<Option<T>>)
    ensures r.after == item(input, s).after
    ensures r.out == Done(None) <==> item(input, s).out.Thrown? && item(input, s).after.pos == s.pos
    ensures item(input, s).out.Done? ==> r.out == Done(Some(item(input, s).out.value))
    ensures r.out.Thrown? <==> item(input, s).out.Thrown? && item(input, s).after.pos != s.pos
    ensures r.out.Thrown? ==> r.out.error == item(input, s).out.error
  {
    var a := item(input, s);
    match a.out
    case Done(v) => Run(Done(Some(v)), a.after)
    case Thrown(e) => if a.after.pos == s.pos then Run(Done(None), a.after) else Run(Thrown(e), a.after)
    case Escaped(w) => Run(Escaped(w), a.after)
  }

  /**
   * `manyTillPair(p, q)` from state `s`: before each item try the terminator
   * `q` optionally; once it succeeds return the items and its value.
   */
  function ManyTillFrom<A, B>(p: Parser<A>, q: Parser<B>, input: seq<char>, s: State, acc: seq<A>): Run<(seq<A>, B)>
    decreases |input| - s.pos
  {
    var o := Optional(q, input, s);
    if !o.out.Done? then Forward(o)
    else if o.out.value.Some? then Run(Done((acc, o.out.value.value)), o.after)
    else
      var a := p(input, o.after);
      if !a.out.Done? then Forward(a)
      else if s.pos < a.after.pos <= |input| then ManyTillFrom(p, q, input, a.after, acc + [a.out.value])
      else Run(Escaped(EndlessLoop), a.after)
  }

  function ManyTillPair<A, B>(p: Parser<A>, q: Parser<B>, input: seq<char>, s: State): Run<(seq<A>, B)>
  {
    ManyTillFrom(p, q, input, s, [])
  }

  /** `manyTill(p, q)`: `manyTillPair` without the terminator's value. */
  function ManyTill<A, B>(p: Parser<A>, q: Parser<B>, input: seq<char>, s: State): Run<seq<A>>
  {
    var r := ManyTillPair(p, q, input, s);
    if r.out.Done? then Run(Done(r.out.value.0), r.after) else Forward(r)
  }

  /** `spanned(p)`: the value together with the range of input the parser moved over. */
  function Spanned<T>(action: Parser<T>, input: seq<char>, s: State): (r: Run<(T, Loc)>)
    ensures r.after == action(input, s).after
    ensures r.out.Done? <==> action(input, s).out.Done?
    ensures r.out.Done? ==> r.out.value == (action(input, s).out.value, Range(s.pos, r.after.pos - s.pos))
    ensures !r.out.Done? ==> r == Forward(action(input, s))
  {
    var a := action(input, s);
    if a.out.Done? then Run(Done((a.out.value, Range(s.pos, a.after.pos - s.pos))), a.after) else Forward(a)
  }

  // ---------------------------------------------------------------------------
  // What repetition collects
  // ---------------------------------------------------------------------------

  /** How many characters from position `p` on satisfy `pred`. */
  function Span(input: seq<char>, p: nat, pred: char -> bool): (k: nat)
    requires p <= |input|
    ensures p + k <= |input|
    ensures forall i :: p <= i < p + k ==> pred(input[i])
    ensures p + k < |input| ==> !pred(input[p + k])
    decreases |input| - p
  {
    if p < |input| && pred(input[p]) then 1 + Span(input, p + 1, pred) else 0
  }

  /** Repeating `satisfy(pred)` collects exactly the longest run of matching characters and stops after it. */
  lemma {:induction false} ManySatisfy(input: seq<char>, s: State, pred: char -> bool, acc: seq<char>)
    requires s.pos <= |input|
    ensures var k := Span(input, s.pos, pred);
      ManyFrom(SatisfyP(pred), input, s, acc) == Run(Done(acc + input[s.pos..s.pos + k]), MoveTo(s, s.pos + k))
    decreases |input| - s.pos
  {
    var a := SatisfyP(pred)(input, s);
    if a.out.Done? {
      var c := input[s.pos];
      assert a == Run(Done(c), State(s.pos + 1, NoExpects));
      assert ManyFrom(SatisfyP(pred), input, s, acc) == ManyFrom(SatisfyP(pred), input, a.after, acc + [c]);
      ManySatisfy(input, a.after, pred, acc + [c]);
      var k := Span(input, s.pos, pred);
      var rest := Span(input, s.pos + 1, pred);
      assert rest == k - 1;
      assert ManyFrom(SatisfyP(pred), input, a.after, acc + [c])
        == Run(Done(acc + [c] + input[s.pos + 1..s.pos + 1 + rest]), MoveTo(a.after, s.pos + 1 + rest));
      assert MoveTo(a.after, s.pos + k) == MoveTo(s, s.pos + k);
      assert acc + [c] + input[s.pos + 1..s.pos + k] == acc + input[s.pos..s.pos + k];
    } else {
      assert acc + input[s.pos..s.pos] == acc;
    }
  }

  /** A first matching character hands `some(satisfy(pred))` over to `many` just past it. */
  lemma {:induction false} SomeSatisfyStarts(input: seq<char>, s: State, pred: char -> bool)
    requires s.pos < |input| && pred(input[s.pos])
    ensures SomeOf(SatisfyP(pred), input, s)
      == ManyFrom(SatisfyP(pred), input, State(s.pos + 1, NoExpects), [input[s.pos]])
  {
    assert SatisfyP(pred)(input, s) == Satisfy(input, s, pred);
  }

  /** `some(satisfy(pred))` fails without moving where no character matches, and otherwise takes the run. */
  lemma {:induction false} SomeSatisfy(input: seq<char>, s: State, pred: char -> bool)
    requires s.pos <= |input|
    ensures Span(input, s.pos, pred) == 0 ==> SomeOf(SatisfyP(pred), input, s) == Fail(s, None)
    ensures var k := Span(input, s.pos, pred);
      k > 0 ==> SomeOf(SatisfyP(pred), input, s) == Run(Done(input[s.pos..s.pos + k]), State(s.pos + k, NoExpects))
  {
    var k := Span(input, s.pos, pred);
    if k > 0 {
      var c, t := input[s.pos], State(s.pos + 1, NoExpects);
      SomeSatisfyStarts(input, s, pred);
      ManySatisfy(input, t, pred, [c]);
      assert Span(input, s.pos + 1, pred) == k - 1;
      var run := input[s.pos..s.pos + k];
      assert [c] + input[s.pos + 1..s.pos + k] == run;
      assert MoveTo(t, s.pos + k) == State(s.pos + k, NoExpects);
      assert ManyFrom(SatisfyP(pred), input, t, [c]) == Run(Done(run), State(s.pos + k, NoExpects));
    } else {
      assert SatisfyP(pred)(input, s) == Satisfy(input, s, pred) == Fail(s, None);
    }
  }

  /** How many copies of `c` follow position `p`. */
  function Copies(input: seq<char>, p: nat, c: char): (k: nat)
    requires p <= |input|
    ensures p + k <= |input|
    ensures forall i :: p <= i < p + k ==> input[i] == c
    ensures p + k < |input| ==> input[p + k] != c
    decreases |input| - p
  {
    if p < |input| && input[p] == c then 1 + Copies(input, p + 1, c) else 0
  }

  /**
   * Repeating `char(c)` takes the run of `c`s; the failing attempt after it
   * leaves `c` as the expectation at the position where the run ends.
   */
  lemma {:induction false} ManyChar(input: seq<char>, s: State, c: char, acc: seq<char>)
    requires s.pos <= |input|
    ensures var k := Copies(input, s.pos, c);
      ManyFrom(CharP(c), input, s, acc) ==
        Run(Done(acc + input[s.pos..s.pos + k]), State(s.pos + k, Expected(IChar(c), MoveTo(s, s.pos + k).expects)))
    decreases |input| - s.pos
  {
    var a := CharP(c)(input, s);
    if a.out.Done? {
      assert a == Run(Done(c), State(s.pos + 1, NoExpects));
      assert ManyFrom(CharP(c), input, s, acc) == ManyFrom(CharP(c), input, a.after, acc + [c]);
      ManyChar(input, a.after, c, acc + [c]);
      var k := Copies(input, s.pos, c);
      assert Copies(input, s.pos + 1, c) == k - 1;
      assert MoveTo(a.after, s.pos + k) == MoveTo(s, s.pos + k);
      assert acc + [c] + input[s.pos + 1..s.pos + k] == acc + input[s.pos..s.pos + k];
    } else {
      assert acc + input[s.pos..s.pos] == acc;
    }
  }

  /** The index of the first `c` at or after `p`, if there is one. */
  function FindChar(input: seq<char>, p: nat, c: char): (j: Option<nat>)
    requires p <= |input|
    ensures j.Some? ==> p <= j.value < |input| && input[j.value] == c
    ensures j.Some? ==> forall i :: p <= i < j.value ==> input[i] != c
    ensures j.None? ==> forall i :: p <= i < |input| ==> input[i] != c
    decreases |input| - p
  {
    if p == |input| then None else if input[p] == c then Some(p) else FindChar(input, p + 1, c)
  }

  /**
   * `manyTill(next, char(c))` collects every character before the first
   * `c` and consumes that `c`; with no `c` left it fails at the end of the
   * input expecting any character.
   */
  lemma {:induction false} ManyTillNextChar(input: seq<char>, s: State, c: char, acc: seq<char>)
    requires s.pos <= |input|
    ensures var r := ManyTillFrom(NextP(), CharP(c), input, s, acc);
      match FindChar(input, s.pos, c)
      case Some(j) => r.out == Done((acc + input[s.pos..j], c)) && r.after.pos == j + 1
      case None => r.out == Thrown(ParseError(|input|, None)) && r.after.pos == |input|
    decreases |input| - s.pos
  {
    var o := Optional(CharP(c), input, s);
    if s.pos < |input| && input[s.pos] != c {
      assert o == Run(Done(None), State(s.pos, Expected(IChar(c), s.expects)));
      var a := Next(input, o.after);
      assert a == Run(Done(input[s.pos]), State(s.pos + 1, NoExpects));
      assert ManyTillFrom(NextP(), CharP(c), input, s, acc)
        == ManyTillFrom(NextP(), CharP(c), input, a.after, acc + [input[s.pos]]);
      ManyTillNextChar(input, a.after, c, acc + [input[s.pos]]);
      match FindChar(input, s.pos + 1, c)
      case Some(j) => assert acc + [input[s.pos]] + input[s.pos + 1..j] == acc + input[s.pos..j];
      case None =>
    } else if s.pos < |input| {
      assert o == Run(Done(Some(c)), State(s.pos + 1, NoExpects));
      assert acc + input[s.pos..s.pos] == acc;
    } else {
      assert o == Run(Done(None), State(s.pos, Expected(IChar(c), s.expects)));
    }
  }

  // ---------------------------------------------------------------------------
  // Running a parser over a whole source (src/cadenza/syntax/source.kt)
  // ---------------------------------------------------------------------------

  /** `Result`: the value, or where and why the parse failed with the expectations oldest first. */
  datatype Parsed<T> = Success(value: T) | Failure(pos: nat, message: Option<string>, expected: seq<Item>) | Stuck(why: Escape)

  /** `Source.parse`: run the parser from the start with no expectations. */
  function ParseSource<T>(p: Parser<T>, input: seq<char>): (r: Parsed<T>)
    ensures p(input, State(0, NoExpects)).out.Done? <==> r.Success?
    ensures r.Failure? ==> r.pos == p(input, State(0, NoExpects)).after.pos
  {
    var a := p(input, State(0, NoExpects));
    match a.out
    case Done(v) => Success(v)
    case Thrown(e) => Failure(a.after.pos, e.message, Items(a.after.expects))
    case Escaped(w) => Stuck(w)
  }

  /** Example, from the `many` test: `many { char('x') }` over "xxx" yields three x's. */
  lemma {:induction false} ManyTest()
    ensures ParseSource((input, s) => Many(CharP('x'), input, s), "xxx") == Success("xxx")
  {
    ManyChar("xxx", State(0, NoExpects), 'x', []);
    assert Copies("xxx", 3, 'x') == 0;
    assert Copies("xxx", 0, 'x') == 3;
    assert [] + "xxx"[0..3] == "xxx";
  }

  /** Example, from the `some` test: `some { char('y') }` over "xxx" fails and `some { char('x') }` yields three x's. */
  lemma {:induction false} SomeTest()
    ensures ParseSource((input, s) => SomeOf(CharP('y'), input, s), "xxx").Failure?
    ensures ParseSource((input, s) => SomeOf(CharP('x'), input, s), "xxx") == Success("xxx")
  {
    ManyChar("xxx", State(1, NoExpects), 'x', ['x']);
    assert Copies("xxx", 3, 'x') == 0;
    assert Copies("xxx", 1, 'x') == 2;
    assert ['x'] + "xxx"[1..3] == "xxx";
  }

  /** Example, from the `choice` test: two alternatives that expect "a" and "b" fail listing both, in that order. */
  lemma {:induction false} ChoiceTest()
    ensures var alts: seq<Parser<()>> := [(i, t) => Expect(t, IText("a")), (i, t) => Expect(t, IText("b"))];
      ParseSource((input, s) => Choice(alts, input, s), "xxx") == Failure(0, None, [IText("a"), IText("b")])
  {
    PushItems(NoExpects, [IText("a"), IText("b")]);
  }
}

/**
 * The mutable `Parse` object of src/parser.kt: each operation changes `pos`
 * and `expects` exactly as the matching function of `Parsers` says, with the
 * repetitions written as the loops of the source.
 */
module ParseObjects {
  import opened Wrappers
  import opened Parsers

  class Parse {
    const characters: seq<char>
    var pos: nat
    var expects: Chain

    function Snapshot(): State
      reads this
    {
      State(pos, expects)
    }

    constructor (characters: seq<char>)
      ensures this.characters == characters
      ensures Snapshot() == State(0, NoExpects)
    {
      this.characters := characters;
      pos := 0;
      expects := NoExpects;
    }

    /** The `pos` setter: moving forgets the expectations, assigning the same position keeps them. */
    method SetPos(value: nat)
      modifies this
      ensures pos == value
      ensures expects == if value == old(pos) then old(expects) else NoExpects
      ensures Snapshot() == MoveTo(old(Snapshot()), value)
    {
      if pos != value {
        pos := value;
        expects := NoExpects;
      }
    }

    /** `expected`: the expectations recorded at the current position, oldest first. */
    method Expectations() returns (xs: seq<Item>)
      ensures xs == Items(expects)
    {
      xs := ToList(expects);
    }

    /** Take over the state a sub-parser left. */
    method Resume(st: State)
      modifies this
      ensures Snapshot() == st
    {
      pos, expects := st.pos, st.expects;
    }

    method Expect<T>(what: Item) returns (r: Outcome<T>)
      modifies this
      ensures Run(r, Snapshot()) == Parsers.Expect(old(Snapshot()), what)
    {
      expects := Expected(what, expects);
      r := Thrown(ParseError(pos, None));
    }

    method Fail<T>(message: Option<string>) returns (r: Outcome<T>)
      ensures Run(r, Snapshot()) == Parsers.Fail(Snapshot(), message)
    {
      r := Thrown(ParseError(pos, message));
    }

    method Eof() returns (r: Outcome<()>)
      modifies this
      ensures Run(r, Snapshot()) == Parsers.Eof(characters, old(Snapshot()))
    {
      if pos != |characters| {
        r := Expect(IText("EOF"));
      } else {
        r := Done(());
      }
    }

    method Char(c: char) returns (r: Outcome<char>)
      modifies this
      ensures Run(r, Snapshot()) == Parsers.Char(characters, old(Snapshot()), c)
    {
      if pos >= |characters| || c != characters[pos] {
        r := Expect(IChar(c));
        return;
      }
      SetPos(pos + 1);
      r := Done(c);
    }

    method String(str: string) returns (r: Outcome<string>)
      modifies this
      ensures Run(r, Snapshot()) == Parsers.String(characters, old(Snapshot()), str)
    {
      if pos + |str| > |characters| || characters[pos..pos + |str|] != str {
        r := Expect(IText(str));
        return;
      }
      SetPos(pos + |str|);
      r := Done(str);
    }

    method Satisfy(pred: char -> bool) returns (r: Outcome<char>)
      modifies this
      ensures Run(r, Snapshot()) == Parsers.Satisfy(characters, old(Snapshot()), pred)
    {
      if pos >= |characters| {
        r := Fail(None);
        return;
      }
      var c := characters[pos];
      if !pred(c) {
        r := Fail(None);
        return;
      }
      SetPos(pos + 1);
      r := Done(c);
    }

    method Next() returns (r: Outcome<char>)
      modifies this
      ensures Run(r, Snapshot()) == Parsers.Next(characters, old(Snapshot()))
    {
      if pos >= |characters| {
        r := Expect(IText("any character"));
        return;
      }
      var c := characters[pos];
      SetPos(pos + 1);
      r := Done(c);
    }

    method Trying<T>(what: Item, action: Parser<T>) returns (r: Outcome<T>)
      modifies this
      ensures Run(r, Snapshot()) == Parsers.Trying(what, action, characters, old(Snapshot()))
    {
      var start := pos;
      var oldExpected := expects;
      expects := NoExpects;
      var a := action(characters, Snapshot());
      Resume(a.after);
      r := a.out;
      if r.Thrown? {
        SetPos(start);
        expects := Expected(what, oldExpected);
        r := Thrown(ParseError(start, None));
      }
    }

    method Named<T>(what: Item, action: Parser<T>) returns (r: Outcome<T>)
      modifies this
      ensures Run(r, Snapshot()) == Parsers.Named(what, action, characters, old(Snapshot()))
    {
      var start := pos;
      var oldExpected := expects;
      expects := NoExpects;
      var a := action(characters, Snapshot());
      Resume(a.after);
      r := a.out;
      if r.Thrown? && r.error.pos == start {
        expects := Expected(what, oldExpected);
      }
    }

    method Choice<T>(alts: seq<Parser<T>>) returns (r: Outcome<T>)
      modifies this
      ensures Run(r, Snapshot()) == Parsers.Choice(alts, characters, old(Snapshot()))
    {
      var start := pos;
      var i := 0;
      while i < |alts|
        invariant 0 <= i <= |alts|
        invariant ChoiceFrom(alts[i..], start, characters, Snapshot()) == Parsers.Choice(alts, characters, old(Snapshot()))
      {
        var a := alts[i](characters, Snapshot());
        assert alts[i..][0] == alts[i] && alts[i..][1..] == alts[i + 1..];
        Resume(a.after);
        if !(a.out.Thrown? && a.out.error.pos == start) {
          return a.out;
        }
        i := i + 1;
      }
      r := Thrown(ParseError(start, None));
    }

    method Many<T>(item: Parser<T>) returns (r: Outcome<seq<T>>)
      modifies this
      ensures Run(r, Snapshot()) == Parsers.Many(item, characters, old(Snapshot()))
    {
      var result: seq<T> := [];
      while true
        invariant ManyFrom(item, characters, Snapshot(), result) == Parsers.Many(item, characters, old(Snapshot()))
        decreases |characters| - pos
      {
        var start := pos;
        var a := item(characters, Snapshot());
        Resume(a.after);
        match a.out {
          case Thrown(e) =>
            if e.pos == start {
              return Done(result);
            }
            return Thrown(e);
          case Escaped(w) =>
            return Escaped(w);
          case Done(v) =>
            if !(start < pos <= |characters|) {
              return Escaped(EndlessLoop);
            }
            result := result + [v];
        }
      }
    }

    method SomeOf<T>(item: Parser<T>) returns (r: Outcome<seq<T>>)
      modifies this
      ensures Run(r, Snapshot()) == Parsers.SomeOf(item, characters, old(Snapshot()))
    {
      var first := item(characters, Snapshot());
      Resume(first.after);
      if !first.out.Done? {
        return Forward<T, seq<T>>(first).out;
      }
      var result: seq<T> := [first.out.value];
      while true
        invariant ManyFrom(item, characters, Snapshot(), result) == Parsers.SomeOf(item, characters, old(Snapshot()))
        decreases |characters| - pos
      {
        var start := pos;
        var a := item(characters, Snapshot());
        Resume(a.after);
        match a.out {
          case Thrown(e) =>
            if e.pos == start {
              return Done(result);
            }
            return Thrown(e);
          case Escaped(w) =>
            return Escaped(w);
          case Done(v) =>
            if !(start < pos <= |characters|) {
              return Escaped(EndlessLoop);
            }
            result := result + [v];
        }
      }
    }

    method Optional<T>(item: Parser<T>) returns (r: Outcome<Option<T>>)
      modifies this
      ensures Run(r, Snapshot()) == Parsers.Optional(item, characters, old(Snapshot()))
    {
      var start := pos;
      var a := item(characters, Snapshot());
      Resume(a.after);
      match a.out {
        case Done(v) => r := Done(Some(v));
        case Thrown(e) => r := if pos == start then Done(None) else Thrown(e);
        case Escaped(w) => r := Escaped(w);
      }
    }

    method ManyTillPair<A, B>(p: Parser<A>, q: Parser<B>) returns (r: Outcome<(seq<A>, B)>)
      modifies this
      ensures Run(r, Snapshot()) == Parsers.ManyTillPair(p, q, characters, old(Snapshot()))
    {
      var result: seq<A> := [];
      while true
        invariant ManyTillFrom(p, q, characters, Snapshot(), result) == Parsers.ManyTillPair(p, q, characters, old(Snapshot()))
        decreases |characters| - pos
      {
        var start := pos;
        var last := Optional(q);
        if !last.Done? {
          return if last.Thrown? then Thrown(last.error) else Escaped(last.why);
        }
        if last.value.Some? {
          return Done((result, last.value.value));
        }
        var a := p(characters, Snapshot());
        Resume(a.after);
        if !a.out.Done? {
          return if a.out.Thrown? then Thrown(a.out.error) else Escaped(a.out.why);
        }
        if !(start < pos <= |characters|) {
          return Escaped(EndlessLoop);
        }
        result := result + [a.out.value];
      }
    }

    method ManyTill<A, B>(p: Parser<A>, q: Parser<B>) returns (r: Outcome<seq<A>>)
      modifies this
      ensures Run(r, Snapshot()) == Parsers.ManyTill(p, q, characters, old(Snapshot()))
    {
      var pair := ManyTillPair(p, q);
      r := if pair.Done? then Done(pair.value.0) else if pair.Thrown? then Thrown(pair.error) else Escaped(pair.why);
    }

    method Spanned<T>(action: Parser<T>) returns (r: Outcome<(T, Loc)>)
      modifies this
      ensures Run(r, Snapshot()) == Parsers.Spanned(action, characters, old(Snapshot()))
    {
      var a: int := pos;
      var x := action(characters, Snapshot());
      Resume(x.after);
      if !x.out.Done? {
        return if x.out.Thrown? then Thrown(x.out.error) else Escaped(x.out.why);
      }
      var b: int := pos;
      r := Done((x.out.value, Range(a, b - a)));
    }
  }
}

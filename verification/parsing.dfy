/**
 * The error-reporting side of parsing/main/parsing.kt: the Oxford-comma list
 * of expectations, the expectation chain listed newest first, the message
 * selection of `Failure.emit`, and `Source.parse`.
 *
 * The combinators of that file (`char`, `satisfy`, `next`, `eof`, `trying`,
 * `named`, `choice`, `many`, `some`, `optional`, `manyTill`) behave exactly as
 * those of src/parser.kt, so the functions of `Parsers` serve for both; the
 * `ParseState` object is the `Parse` object of `ParseObjects`.
 */
module Parsing {
  import opened Wrappers
  import opened Parsers

  // ---------------------------------------------------------------------------
  // Numbers and items as text
  // ---------------------------------------------------------------------------

  /** The character of a decimal digit. */
  function DigitChar(d: nat): (c: char)
    requires d < 10
    ensures '0' <= c <= '9' && c as int - '0' as int == d
  {
    ('0' as int + d) as char
  }

  /** `StringBuilder.append(n)` for a count: the decimal numeral, without leading zeros. */
  function Numeral(n: nat): (ds: string)
    ensures 1 <= |ds|
    ensures forall i :: 0 <= i < |ds| ==> '0' <= ds[i] <= '9'
    ensures |ds| > 1 ==> ds[0] != '0'
  {
    if n < 10 then [DigitChar(n)] else Numeral(n / 10) + [DigitChar(n % 10)]
  }

  /** How an expectation prints: a character as itself, a text as it is. */
  function Show(w: Item): string
  {
    match w
    case IChar(c) => [c]
    case IText(t) => t
  }

  function ShowAll(ws: seq<Item>): (r: seq<string>)
    ensures |r| == |ws| && forall i :: 0 <= i < |ws| ==> r[i] == Show(ws[i])
  {
    if ws == [] then [] else [Show(ws[0])] + ShowAll(ws[1..])
  }

  // ---------------------------------------------------------------------------
  // oxford
  // ---------------------------------------------------------------------------

  /** The count of items, "item" in the plural unless there is exactly one, and a colon. */
  function Header(n: nat): string
  {
    Numeral(n) + " item" + (if n != 1 then "s" else "") + ": "
  }

  /** Each item followed by ", ", in order. */
  function Commas(xs: seq<string>): string
  {
    if xs == [] then "" else Commas(xs[..|xs| - 1]) + xs[|xs| - 1] + ", "
  }

  /** The items: none, one, two joined by " or ", or more with commas and " or " before the last. */
  function OxfordBody(xs: seq<string>): string
  {
    if |xs| == 0 then ""
    else if |xs| == 1 then xs[0]
    else if |xs| == 2 then xs[0] + " or " + xs[1]
    else Commas(xs[..|xs| - 1]) + "or " + xs[|xs| - 1]
  }

  /** `oxford()`: the header, then the items. */
  function Oxford(xs: seq<string>): string
  {
    Header(|xs|) + OxfordBody(xs)
  }

  /** `oxford(builder)`: append the header and the items to what the builder holds. */
  method OxfordOnto(builder: string, xs: seq<string>) returns (out: string)
    ensures out == builder + Oxford(xs)
  {
    var n := |xs|;
    out := builder + Numeral(n);
    out := out + " item";
    if n != 1 {
      out := out + "s";
    }
    out := out + ": ";
    assert out == builder + Header(n);
    ghost var head := out;
    if n == 1 {
      out := out + xs[0];
    } else if n == 2 {
      out := out + xs[0];
      out := out + " or ";
      out := out + xs[1];
    } else if n > 2 {
      out := CommasOnto(out, xs[..n - 1]);
      out := out + "or ";
      out := out + xs[n - 1];
      assert out == head + (Commas(xs[..n - 1]) + "or " + xs[n - 1]);
    }
  }

  /** The loop of `oxford` over all items but the last: each item, then ", ". */
  method CommasOnto(builder: string, xs: seq<string>) returns (out: string)
    ensures out == builder + Commas(xs)
  {
    out := builder;
    var i := 0;
    while i < |xs|
      invariant 0 <= i <= |xs|
      invariant out == builder + Commas(xs[..i])
    {
      assert xs[..i + 1][..i] == xs[..i];
      out := out + xs[i];
      out := out + ", ";
      i := i + 1;
    }
    assert xs[..|xs|] == xs;
  }

  /** Items separated by `sep`, with nothing before the first or after the last. */
  function Join(xs: seq<string>, sep: string): string
  {
    if xs == [] then "" else if |xs| == 1 then xs[0] else Join(xs[..|xs| - 1], sep) + sep + xs[|xs| - 1]
  }

  /** Each item followed by a comma is the items joined by commas, and one more comma. */
  lemma {:induction false} CommasJoin(xs: seq<string>)
    requires xs != []
    ensures Commas(xs) == Join(xs, ", ") + ", "
    decreases |xs|
  {
    if |xs| > 1 {
      CommasJoin(xs[..|xs| - 1]);
    } else {
      assert xs[..0] == [];
    }
  }

  /**
   * With three or more items the list is written with the Oxford comma: the
   * items joined by ", ", and ", or " before the last.
   */
  lemma {:induction false} OxfordComma(xs: seq<string>)
    requires |xs| >= 3
    ensures OxfordBody(xs) == Join(xs[..|xs| - 1], ", ") + ", or " + xs[|xs| - 1]
  {
    CommasJoin(xs[..|xs| - 1]);
  }

  /** Examples of `Parsing.OxfordComma` and the header: the plural for every count but one. */
  lemma {:induction false} OxfordNone()
    ensures Oxford([]) == "0 items: "
  {
  }

  lemma {:induction false} OxfordOne()
    ensures Oxford(["a"]) == "1 item: a"
  {
  }

  lemma {:induction false} OxfordTwo()
    ensures Oxford(["a", "b"]) == "2 items: a or b"
  {
  }

  lemma {:induction false} OxfordThree()
    ensures Oxford(["a", "b", "c"]) == "3 items: a, b, or c"
  {
    var xs := ["a", "b", "c"];
    assert Numeral(3) == "3";
    OxfordComma(xs);
    assert xs[..2] == ["a", "b"];
    assert Join(["a", "b"], ", ") == "a, b" by {
      assert ["a", "b"][..1] == ["a"];
    }
  }

  // ---------------------------------------------------------------------------
  // Expected.toList
  // ---------------------------------------------------------------------------

  /** `Expected?.toList` of this file: the expectations as the chain holds them, newest first. */
  function NewestFirst(c: Chain): seq<Item>
  {
    match c
    case NoExpects => []
    case Expected(w, n) => [w] + NewestFirst(n)
  }

  /** `Expected?.toList`: walk the chain, adding each expectation at the end of the list. */
  method ToList(c: Chain) returns (out: seq<Item>)
    ensures out == NewestFirst(c)
  {
    out := [];
    var current := c;
    while current.Expected?
      invariant NewestFirst(c) == out + NewestFirst(current)
      decreases current
    {
      assert out + NewestFirst(current) == (out + [current.what]) + NewestFirst(current.next);
      out := out + [current.what];
      current := current.next;
    }
  }

  function Reversed<T>(xs: seq<T>): (r: seq<T>)
    ensures |r| == |xs| && forall i :: 0 <= i < |xs| ==> r[i] == xs[|xs| - 1 - i]
  {
    if xs == [] then [] else Reversed(xs[1..]) + [xs[0]]
  }

  /** This file lists the chain in the reverse of the order src/parser.kt does. */
  lemma {:induction false} NewestFirstReversed(c: Chain)
    ensures NewestFirst(c) == Reversed(Items(c))
  {
    match c
    case NoExpects =>
    case Expected(w, n) =>
      NewestFirstReversed(n);
      var xs := Items(n) + [w];
      assert xs[0] == (if Items(n) == [] then w else Items(n)[0]);
      assert NewestFirst(c) == [w] + Reversed(Items(n));
  }

  // ---------------------------------------------------------------------------
  // Failure.emit and Source.parse
  // ---------------------------------------------------------------------------

  /** What the expectations of a chain print as: their Oxford list, newest first. */
  function ExpectedText(c: Chain): string
  {
    Oxford(ShowAll(NewestFirst(c)))
  }

  predicate EndsWith(text: string, tail: string)
  {
    |tail| <= |text| && text[|text| - |tail|..] == tail
  }

  /** The message part of `emit`. */
  function ErrorText(message: Option<string>, expected: Chain): (r: string)
    ensures message.Some? ==> |message.value| <= |r| && r[..|message.value|] == message.value
    ensures expected.Expected? ==> EndsWith(r, ExpectedText(expected))
    ensures expected == NoExpects ==> r == (if message.Some? then message.value else "expected nothing")
    ensures message.None? && expected.Expected? ==> r == "expected " + ExpectedText(expected)
  {
    if expected == NoExpects then (if message.Some? then message.value else "expected nothing")
    else if message.None? then "expected " + ExpectedText(expected)
    else message.value + ", expected " + ExpectedText(expected)
  }

  function Blanks(k: nat): (r: string)
    ensures |r| == k && forall i :: 0 <= i < k ==> r[i] == ' '
  {
    if k == 0 then "" else Blanks(k - 1) + " "
  }

  /** Where the error is: the source name, the line and the column. */
  function Location(name: string, line: nat, col: nat): string
  {
    name + ":" + Numeral(line) + ":" + Numeral(col) + " error: "
  }

  /** The source line, and a caret under the column. */
  function Excerpt(lineText: string, col: nat): string
  {
    "\n\n" + lineText + "\n" + Blanks(if col >= 1 then col - 1 else 0) + "^\n\n"
  }

  /**
   * The whole report: where, the message, the source line, and a caret
   * under the column. The line and column numbers and the text of the line
   * come from the source, and are given here.
   */
  function Report(name: string, line: nat, col: nat, lineText: string, message: Option<string>, expected: Chain): string
  {
    Location(name, line, col) + ErrorText(message, expected) + Excerpt(lineText, col)
  }

  /** The message part of `emit`, appended to the builder. */
  method EmitMessage(builder: string, message: Option<string>, expected: Chain) returns (out: string)
    ensures out == builder + ErrorText(message, expected)
  {
    if expected == NoExpects {
      out := builder + (if message.Some? then message.value else "expected nothing");
    } else if message.None? {
      var shown := ToList(expected);
      out := builder + "expected " + Oxford(ShowAll(shown));
    } else {
      var shown := ToList(expected);
      out := OxfordOnto(builder + message.value + ", expected ", ShowAll(shown));
    }
  }

  /** `Failure.emit(builder)`: append the report. */
  method Emit(builder: string, name: string, line: nat, col: nat, lineText: string, message: Option<string>, expected: Chain)
    returns (out: string)
    ensures out == builder + Report(name, line, col, lineText, message, expected)
  {
    var location := builder + Location(name, line, col);
    var told := EmitMessage(location, message, expected);
    out := CaretOnto(told, lineText, col);
    Regroup(builder, Location(name, line, col), ErrorText(message, expected), Excerpt(lineText, col));
  }

  /** Appending three parts one after another is appending them together. */
  lemma {:induction false} Regroup(a: string, b: string, c: string, d: string)
    ensures a + b + c + d == a + (b + c + d)
  {
  }

  /** The tail of `emit`: the source line, then the caret's indent written a blank at a time, then the caret. */
  method CaretOnto(builder: string, lineText: string, col: nat) returns (out: string)
    ensures out == builder + Excerpt(lineText, col)
  {
    out := builder + "\n\n" + lineText + "\n";
    ghost var before := out;
    var i := 0;
    var indent := if col >= 1 then col - 1 else 0;
    while i < indent
      invariant 0 <= i <= indent
      invariant out == before + Blanks(i)
    {
      out := out + " ";
      i := i + 1;
    }
    out := out + "^\n\n";
  }

  /** `ParseResult`: the value, or where and why the parse failed with the chain of expectations. */
  datatype ParseResult<T> = Succeeded(value: T) | Failed(pos: nat, message: Option<string>, expected: Chain) | Aborted(why: Escape)

  /** `Source.parse`: run the parser from a fresh state; a failure keeps the final position and expectations. */
  function SourceParse<T>(p: Parser<T>, input: seq<char>): (r: ParseResult<T>)
    ensures r.Succeeded? <==> p(input, State(0, NoExpects)).out.Done?
    ensures r.Failed? ==> p(input, State(0, NoExpects)).out.Thrown? && p(input, State(0, NoExpects)).out.error.message == r.message
    ensures r.Failed? ==> State(r.pos, r.expected) == p(input, State(0, NoExpects)).after
  {
    var a := p(input, State(0, NoExpects));
    match a.out
    case Done(v) => Succeeded(v)
    case Thrown(e) => Failed(a.after.pos, e.message, a.after.expects)
    case Escaped(w) => Aborted(w)
  }

  /** Both `Source.parse`s agree, except that they list the expectations in opposite orders. */
  lemma {:induction false} SourceParseAgrees<T>(p: Parser<T>, input: seq<char>)
    ensures var r := SourceParse(p, input); var q := ParseSource(p, input);
      (r.Succeeded? <==> q.Success?) && (r.Succeeded? ==> r.value == q.value) &&
      (r.Failed? <==> q.Failure?) &&
      (r.Failed? ==> r.pos == q.pos && r.message == q.message && NewestFirst(r.expected) == Reversed(q.expected))
  {
    var r := SourceParse(p, input);
    if r.Failed? {
      NewestFirstReversed(r.expected);
    }
  }
}

/**
 * The layout engine of src/pretty.kt. A document is the code a `Doc` block
 * runs against the printer; here the blocks the library builds are a
 * datatype, `Exec` is what running one does to the printer's fields, and the
 * class `PrettyObjects.Pretty` runs them by updating those fields in place.
 *
 * A `Bad` thrown by a chunk that does not fit is the `bad` flag of a result,
 * together with the fields as they are once every `finally` on the way out
 * has run.
 */
module Layout {
  import opened Wrappers
  import Parsing

  // ---------------------------------------------------------------------------
  // Formats
  // ---------------------------------------------------------------------------

  /** The colours of `Ansi.Color`. */
  datatype AnsiColor = Black | Red | Green | Yellow | Blue | Magenta | Cyan | White | Default

  datatype Color = Color(color: AnsiColor, bright: bool)

  /** `Format`: the colours and attributes in force. */
  datatype Format = Format(fg: Color, bg: Color, italic: bool, bold: bool)

  /** `Format.default`. */
  const DefaultFormat := Format(Color(Default, false), Color(Default, false), false, false)

  /** `Format.Delta`: the fields an annotation sets; `None` leaves a field alone. */
  datatype Delta = Delta(fg: Option<Color>, bg: Option<Color>, italic: Option<bool>, bold: Option<bool>)

  function Or<T>(a: Option<T>, b: Option<T>): (r: Option<T>)
    ensures r == if a.Some? then a else b
  {
    if a.Some? then a else b
  }

  function Pick<T>(a: Option<T>, b: T): (r: T)
    ensures r == if a.Some? then a.value else b
  {
    if a.Some? then a.value else b
  }

  /** `Delta.plus`: a field set on the right wins, otherwise the left one stays. */
  function DeltaPlus(a: Delta, b: Delta): Delta
  {
    Delta(Or(b.fg, a.fg), Or(b.bg, a.bg), Or(b.italic, a.italic), Or(b.bold, a.bold))
  }

  /** `Format.plus`: apply a delta to a format. */
  function FormatPlus(f: Format, d: Delta): Format
  {
    Format(Pick(d.fg, f.fg), Pick(d.bg, f.bg), Pick(d.italic, f.italic), Pick(d.bold, f.bold))
  }

  /** The delta that changes nothing. */
  const NoDelta := Delta(None, None, None, None)

  /** Adding deltas is associative and has the empty delta on both sides. */
  lemma {:induction false} DeltaMonoid(a: Delta, b: Delta, c: Delta)
    ensures DeltaPlus(DeltaPlus(a, b), c) == DeltaPlus(a, DeltaPlus(b, c))
    ensures DeltaPlus(NoDelta, a) == a && DeltaPlus(a, NoDelta) == a
  {
  }

  /** Applying two deltas one after the other is applying their sum; the empty delta changes nothing. */
  lemma {:induction false} FormatAction(f: Format, a: Delta, b: Delta)
    ensures FormatPlus(FormatPlus(f, a), b) == FormatPlus(f, DeltaPlus(a, b))
    ensures FormatPlus(f, NoDelta) == f
  {
  }

  /** A delta that sets every field gives the same format whatever it is applied to. */
  lemma {:induction false} FullDeltaOverrides(f: Format, g: Format, d: Delta)
    requires d.fg.Some? && d.bg.Some? && d.italic.Some? && d.bold.Some?
    ensures FormatPlus(f, d) == FormatPlus(g, d)
  {
  }

  // ---------------------------------------------------------------------------
  // Output
  // ---------------------------------------------------------------------------

  /** What `set`/`reset` of an annotation write to the terminal. */
  datatype Effect = Foreground(c: Color) | Background(c: Color) | BoldOn | ItalicOn

  /** `Ann`: an effect and the delta it adds to the format. */
  datatype Ann = Ann(effect: Effect, delta: Delta)

  /** `Out`: the tree of output the printer builds. */
  datatype Out =
    | OAnnotated(ann: Ann, body: Out)
    | OSeq(children: seq<Out>)
    | ONewline
    | OText(text: string)
    | OSpace(w: int)

  function Blanks(k: int): (r: string)
    ensures |r| == (if k > 0 then k else 0) && forall i :: 0 <= i < |r| ==> r[i] == ' '
    decreases k
  {
    if k <= 0 then "" else Blanks(k - 1) + " "
  }

  /** The characters a piece of output shows, annotations aside. */
  function OutText(o: Out): string
    decreases o, 1
  {
    match o
    case OAnnotated(_, b) => OutText(b)
    case OSeq(cs) => ChildrenText(o, |cs|)
    case ONewline => "\n"
    case OText(t) => t
    case OSpace(w) => Blanks(w)
  }

  /** The characters of the first `n` children of a `Seq`. */
  function ChildrenText(o: Out, n: nat): string
    requires o.OSeq? && n <= |o.children|
    decreases o, 0, n
  {
    if n == 0 then "" else ChildrenText(o, n - 1) + OutText(o.children[n - 1])
  }

  /** The characters of a list of output. */
  function TextOf(outs: seq<Out>): string
  {
    OutText(OSeq(outs))
  }

  lemma {:induction false} ChildrenTextPrefix(outs: seq<Out>, x: Out, n: nat)
    requires n <= |outs|
    ensures ChildrenText(OSeq(outs + [x]), n) == ChildrenText(OSeq(outs), n)
  {
    if n > 0 {
      ChildrenTextPrefix(outs, x, n - 1);
      assert (outs + [x])[n - 1] == outs[n - 1];
    }
  }

  /** Output added at the end shows after what was there. */
  lemma {:induction false} TextOfSnoc(outs: seq<Out>, x: Out)
    ensures TextOf(outs + [x]) == TextOf(outs) + OutText(x)
  {
    var o := OSeq(outs + [x]);
    assert OutText(o) == ChildrenText(o, |outs| + 1) == ChildrenText(o, |outs|) + OutText(x);
    ChildrenTextPrefix(outs, x, |outs|);
    assert OutText(OSeq(outs)) == ChildrenText(OSeq(outs), |outs|);
  }

  // ---------------------------------------------------------------------------
  // Documents and the printer's state
  // ---------------------------------------------------------------------------

  /** The blocks a `Doc` is built from. */
  datatype Doc =
    | DText(t: string)                // text(t)
    | DSpace(w: int)                  // space(w)
    | DHardLine                       // hardLine
    | DNewline                        // newline
    | DEmpty                          // a block that does nothing
    | DCat(first: Doc, second: Doc)   // one block, then the other
    | DGroup(body: Doc)               // grouped
    | DNest(indent: int, body: Doc)   // nest(w)
    | DAlign(body: Doc)               // align
    | DAnnotate(ann: Ann, body: Doc)  // annotate(ann)
    | DIfFlat(flat: Doc, broken: Doc) // if (isFlat) … else …
    | DGutter(conj: string)           // guttered(t)
    | DBold(body: Doc)                // bold
    | DItalic(body: Doc)              // italic

  /** The fields of `Pretty`. */
  datatype PState = PState(
    maxWidth: int, maxRibbon: int, nesting: int, isFlat: bool, canFail: bool,
    format: Format, curLineLen: int, output: seq<Out>)

  /** The fields after running a block, and whether it threw `Bad`. */
  datatype Res = Res(bad: bool, st: PState)

  /** `spaceWidth`: the measure of " ". */
  const SpaceWidth := 1

  /** `Pretty(maxWidth, maxRibbon)` as `prep` creates it. */
  function Initial(maxWidth: int, maxRibbon: int): PState
  {
    PState(maxWidth, maxRibbon, 0, false, false, DefaultFormat, 0, [])
  }

  /** Would a line of length `newLen` break the bounds in force? */
  predicate TooLong(st: PState, newLen: int)
  {
    st.nesting + newLen > st.maxWidth || newLen > st.maxRibbon
  }

  /**
   * `chunk(c)`: while a failure is allowed, a chunk that makes the line too
   * wide or its ribbon too long throws `Bad` and changes nothing; otherwise it
   * is added and the line grows by its length.
   */
  function Chunk(o: Out, len: int, st: PState): (r: Res)
    ensures r.bad <==> st.canFail && TooLong(st, st.curLineLen + len)
    ensures r.bad ==> r.st == st
    ensures !r.bad ==> r.st == st.(output := st.output + [o], curLineLen := st.curLineLen + len)
  {
    var newLen := st.curLineLen + len;
    if st.canFail && TooLong(st, newLen) then Res(true, st)
    else Res(false, st.(output := st.output + [o], curLineLen := newLen))
  }

  /** `hardLine`: a line break; the new line is empty. */
  function HardLine(st: PState): (r: PState)
    ensures r == st.(output := st.output + [ONewline], curLineLen := 0)
  {
    st.(output := st.output + [ONewline], curLineLen := 0)
  }

  /** `guttered(t)`: `t` between blanks; when breaking, on a new line pushed left into the gutter if the indentation allows. */
  function Gutter(t: string, st: PState): Res
  {
    var lead :=
      if st.isFlat then Chunk(OSpace(SpaceWidth), SpaceWidth, st)
      else
        var delta := |t| + SpaceWidth;
        var w := if st.nesting >= delta then st.nesting - delta else st.nesting;
        Chunk(OSpace(w), w, HardLine(st));
    if lead.bad then lead
    else
      var word := Chunk(OText(t), |t|, lead.st);
      if word.bad then word else Chunk(OSpace(SpaceWidth), SpaceWidth, word.st)
  }

  /** The annotation `bold` adds. */
  const BoldAnn := Ann(BoldOn, Delta(None, None, None, Some(true)))

  /** The annotation `italic` adds, with the delta that records italics. */
  const ItalicAnn := Ann(ItalicOn, Delta(None, None, Some(true), None))

  /** Running a block. */
  function Exec(d: Doc, st: PState): Res
    decreases d, 0
  {
    match d
    case DText(t) => Chunk(OText(t), |t|, st)
    case DSpace(w) => Chunk(OSpace(w), w, st)
    case DHardLine => Res(false, HardLine(st))
    case DNewline => Chunk(OSpace(st.nesting), st.nesting, HardLine(st))
    case DEmpty => Res(false, st)
    case DCat(a, b) =>
      var r := Exec(a, st);
      if r.bad then r else Exec(b, r.st)
    case DGroup(body) => Grouped(body, st)
    case DNest(w, body) => Nested(w, body, st)
    case DAlign(body) => Nested(st.curLineLen - st.nesting, body, st)
    case DAnnotate(ann, body) => Annotated(ann, body, st)
    case DIfFlat(a, b) => if st.isFlat then Exec(a, st) else Exec(b, st)
    case DGutter(t) => Gutter(t, st)
    case DBold(body) => if st.format.bold then Exec(body, st) else Annotated(BoldAnn, body, st)
    case DItalic(body) => if st.format.italic then Exec(body, st) else Annotated(ItalicAnn, body, st)
  }

  /**
   * `grouped(body)`: inside a flat group just run the body. Otherwise try it
   * flat with failure allowed; if it does not fit, lay it out again in break
   * mode starting from the state the group began in.
   */
  function Grouped(body: Doc, st: PState): Res
    decreases body, 1
  {
    if st.isFlat then Exec(body, st)
    else
      var r := Exec(body, st.(canFail := true, isFlat := true));
      if !r.bad then Res(false, r.st.(canFail := st.canFail, isFlat := false))
      else Exec(body, st)
  }

  /**
   * `grouped(body)` as written: after a flat attempt that threw, the second
   * run starts from the fields the attempt left, so whatever the attempt
   * output before it threw stays in the output.
   */
  function GroupedAsWritten(body: Doc, st: PState): Res
  {
    if st.isFlat then Exec(body, st)
    else
      var r := Exec(body, st.(canFail := true, isFlat := true));
      if !r.bad then Res(false, r.st.(canFail := st.canFail, isFlat := false))
      else Exec(body, r.st.(canFail := st.canFail, isFlat := false))
  }

  /** `nest(w, body)`: indent the body's new lines by `w` more; the old indentation comes back even on `Bad`. */
  function Nested(w: int, body: Doc, st: PState): Res
    decreases body, 1
  {
    var r := Exec(body, st.(nesting := st.nesting + w));
    Res(r.bad, r.st.(nesting := st.nesting))
  }

  /**
   * `annotate(ann, body)`: run the body into an empty output under the
   * annotated format, then add what it output, annotated, to the old output
   * and put the old format back, even on `Bad`.
   */
  function Annotated(ann: Ann, body: Doc, st: PState): Res
    decreases body, 1
  {
    var r := Exec(body, st.(format := FormatPlus(st.format, ann.delta), output := []));
    Res(r.bad, r.st.(output := st.output + [OAnnotated(ann, OSeq(r.st.output))], format := st.format))
  }

  /** The annotation `italic` adds as written: its delta sets bold, not italic. */
  const ItalicAnnAsWritten := Ann(ItalicOn, Delta(None, None, None, Some(true)))

  /** `italic(body)` as written. */
  function ItalicAsWritten(body: Doc, st: PState): Res
  {
    if st.format.italic then Exec(body, st) else Annotated(ItalicAnnAsWritten, body, st)
  }

  /** `prep`: run a document on a fresh printer and collect what it output. */
  function Prep(maxWidth: int, maxRibbon: int, d: Doc): Out
  {
    OSeq(Exec(d, Initial(maxWidth, maxRibbon)).st.output)
  }

  // ---------------------------------------------------------------------------
  // What running a block keeps
  // ---------------------------------------------------------------------------

  /**
   * Every `finally` puts back what it saved: a block, whether it throws or
   * not, changes only the output and the length of the current line.
   */
  lemma {:induction false} ExecKeeps(d: Doc, st: PState)
    ensures var r := Exec(d, st); r.st == st.(output := r.st.output, curLineLen := r.st.curLineLen)
    decreases d
  {
    match d
    case DText(_) =>
    case DSpace(_) =>
    case DHardLine =>
    case DNewline =>
    case DEmpty =>
    case DCat(a, b) =>
      ExecKeeps(a, st);
      var r := Exec(a, st);
      if !r.bad {
        ExecKeeps(b, r.st);
      }
    case DGroup(body) =>
      ExecKeeps(body, st);
      ExecKeeps(body, st.(canFail := true, isFlat := true));
    case DNest(w, body) =>
      ExecKeeps(body, st.(nesting := st.nesting + w));
    case DAlign(body) =>
      ExecKeeps(body, st.(nesting := st.curLineLen));
    case DAnnotate(ann, body) =>
      ExecKeeps(body, st.(format := FormatPlus(st.format, ann.delta), output := []));
    case DIfFlat(a, b) =>
      ExecKeeps(a, st);
      ExecKeeps(b, st);
    case DGutter(_) =>
    case DBold(body) =>
      ExecKeeps(body, st);
      ExecKeeps(body, st.(format := FormatPlus(st.format, BoldAnn.delta), output := []));
    case DItalic(body) =>
      ExecKeeps(body, st);
      ExecKeeps(body, st.(format := FormatPlus(st.format, ItalicAnn.delta), output := []));
  }

  /** A block only adds to the output, whether it throws or not. */
  lemma {:induction false} OutputGrows(d: Doc, st: PState)
    ensures st.output <= Exec(d, st).st.output
    decreases d
  {
    match d
    case DText(_) =>
    case DSpace(_) =>
    case DHardLine =>
    case DNewline =>
    case DEmpty =>
    case DCat(a, b) =>
      OutputGrows(a, st);
      ExecKeeps(a, st);
      var r := Exec(a, st);
      if !r.bad {
        OutputGrows(b, r.st);
      }
    case DGroup(body) =>
      OutputGrows(body, st);
      OutputGrows(body, st.(canFail := true, isFlat := true));
    case DNest(w, body) =>
      OutputGrows(body, st.(nesting := st.nesting + w));
    case DAlign(body) =>
      OutputGrows(body, st.(nesting := st.curLineLen));
    case DAnnotate(ann, body) =>
      OutputGrows(body, st.(format := FormatPlus(st.format, ann.delta), output := []));
    case DIfFlat(a, b) =>
      OutputGrows(a, st);
      OutputGrows(b, st);
    case DGutter(_) =>
    case DBold(body) =>
      OutputGrows(body, st);
      OutputGrows(body, st.(format := FormatPlus(st.format, BoldAnn.delta), output := []));
    case DItalic(body) =>
      OutputGrows(body, st);
      OutputGrows(body, st.(format := FormatPlus(st.format, ItalicAnn.delta), output := []));
  }

  /** Outside a flat attempt nothing can throw `Bad`. */
  lemma {:induction false} BreakModeNeverFails(d: Doc, st: PState)
    requires !st.canFail
    ensures !Exec(d, st).bad
    decreases d
  {
    match d
    case DText(_) =>
    case DSpace(_) =>
    case DHardLine =>
    case DNewline =>
    case DEmpty =>
    case DCat(a, b) =>
      BreakModeNeverFails(a, st);
      ExecKeeps(a, st);
      BreakModeNeverFails(b, Exec(a, st).st);
    case DGroup(body) =>
      BreakModeNeverFails(body, st);
    case DNest(w, body) =>
      BreakModeNeverFails(body, st.(nesting := st.nesting + w));
    case DAlign(body) =>
      BreakModeNeverFails(body, st.(nesting := st.curLineLen));
    case DAnnotate(ann, body) =>
      BreakModeNeverFails(body, st.(format := FormatPlus(st.format, ann.delta), output := []));
    case DIfFlat(a, b) =>
      BreakModeNeverFails(a, st);
      BreakModeNeverFails(b, st);
    case DGutter(_) =>
    case DBold(body) =>
      BreakModeNeverFails(body, st);
      BreakModeNeverFails(body, st.(format := FormatPlus(st.format, BoldAnn.delta), output := []));
    case DItalic(body) =>
      BreakModeNeverFails(body, st);
      BreakModeNeverFails(body, st.(format := FormatPlus(st.format, ItalicAnn.delta), output := []));
  }

  /** A fresh printer runs every document to the end: `prep` never sees `Bad`. */
  lemma {:induction false} PrepNeverFails(maxWidth: int, maxRibbon: int, d: Doc)
    ensures !Exec(d, Initial(maxWidth, maxRibbon)).bad
  {
    BreakModeNeverFails(d, Initial(maxWidth, maxRibbon));
  }

  /** While failure is allowed, a block that finishes leaves the current line within the ribbon. */
  lemma {:induction false} FitsRibbon(d: Doc, st: PState)
    requires st.canFail && 0 <= st.maxRibbon && st.curLineLen <= st.maxRibbon
    ensures var r := Exec(d, st); !r.bad ==> r.st.curLineLen <= st.maxRibbon
    decreases d
  {
    match d
    case DText(_) =>
    case DSpace(_) =>
    case DHardLine =>
    case DNewline =>
    case DEmpty =>
    case DCat(a, b) =>
      FitsRibbon(a, st);
      ExecKeeps(a, st);
      var r := Exec(a, st);
      if !r.bad {
        FitsRibbon(b, r.st);
      }
    case DGroup(body) =>
      FitsRibbon(body, st);
      FitsRibbon(body, st.(canFail := true, isFlat := true));
      ExecKeeps(body, st.(canFail := true, isFlat := true));
    case DNest(w, body) =>
      FitsRibbon(body, st.(nesting := st.nesting + w));
    case DAlign(body) =>
      FitsRibbon(body, st.(nesting := st.curLineLen));
    case DAnnotate(ann, body) =>
      FitsRibbon(body, st.(format := FormatPlus(st.format, ann.delta), output := []));
    case DIfFlat(a, b) =>
      FitsRibbon(a, st);
      FitsRibbon(b, st);
    case DGutter(_) =>
    case DBold(body) =>
      FitsRibbon(body, st);
      FitsRibbon(body, st.(format := FormatPlus(st.format, BoldAnn.delta), output := []));
    case DItalic(body) =>
      FitsRibbon(body, st);
      FitsRibbon(body, st.(format := FormatPlus(st.format, ItalicAnn.delta), output := []));
  }

  // ---------------------------------------------------------------------------
  // The single basic blocks
  // ---------------------------------------------------------------------------

  /** `newline`: a line break, then the current indentation as blanks. */
  lemma {:induction false} NewlineIndents(st: PState)
    ensures var r := Exec(DNewline, st);
      r.bad <==> st.canFail && TooLong(st, st.nesting)
    ensures var r := Exec(DNewline, st);
      !r.bad ==>
        r.st.output == st.output + [ONewline, OSpace(st.nesting)] && r.st.curLineLen == st.nesting &&
        TextOf(r.st.output) == TextOf(st.output) + "\n" + Blanks(st.nesting)
  {
    var r := Exec(DNewline, st);
    if !r.bad {
      assert r.st.output == st.output + [ONewline] + [OSpace(st.nesting)];
      TextOfSnoc(st.output, ONewline);
      TextOfSnoc(st.output + [ONewline], OSpace(st.nesting));
    }
  }

  /** `nest(w)` indents the lines its body breaks by `w` more; `align` indents them to the current column. */
  lemma {:induction false} NestIndents(w: int, st: PState)
    ensures var r := Exec(DNest(w, DNewline), st);
      !st.canFail ==> !r.bad && r.st.curLineLen == st.nesting + w && r.st.nesting == st.nesting
    ensures var r := Exec(DAlign(DNewline), st);
      !st.canFail ==> !r.bad && r.st.curLineLen == st.curLineLen && r.st.nesting == st.nesting
  {
  }

  /** `annotate`: what the body outputs is wrapped once, after the old output, and the format comes back. */
  lemma {:induction false} AnnotateWraps(ann: Ann, body: Doc, st: PState)
    ensures var r := Exec(DAnnotate(ann, body), st);
      var inner := Exec(body, st.(format := FormatPlus(st.format, ann.delta), output := []));
      r.bad == inner.bad && r.st.format == st.format
      && r.st.output == st.output + [OAnnotated(ann, OSeq(inner.st.output))]
      && TextOf(r.st.output) == TextOf(st.output) + TextOf(inner.st.output)
  {
    var inner := Exec(body, st.(format := FormatPlus(st.format, ann.delta), output := []));
    TextOfSnoc(st.output, OAnnotated(ann, OSeq(inner.st.output)));
  }

  // ---------------------------------------------------------------------------
  // Flat layout and the choice `grouped` makes
  // ---------------------------------------------------------------------------

  /** Blocks that lay out on one line in flat mode: no line breaks outside the broken side of a flat test, no nesting, no negative spaces. */
  predicate Flattenable(d: Doc)
  {
    match d
    case DText(_) => true
    case DSpace(w) => w >= 0
    case DHardLine => false
    case DNewline => false
    case DEmpty => true
    case DCat(a, b) => Flattenable(a) && Flattenable(b)
    case DGroup(body) => Flattenable(body)
    case DNest(_, _) => false
    case DAlign(body) => Flattenable(body)
    case DAnnotate(_, body) => Flattenable(body)
    case DIfFlat(a, _) => Flattenable(a)
    case DGutter(_) => true
    case DBold(body) => Flattenable(body)
    case DItalic(body) => Flattenable(body)
  }

  /** The characters a block shows when laid out flat. */
  function FlatText(d: Doc): string
  {
    match d
    case DText(t) => t
    case DSpace(w) => Blanks(w)
    case DHardLine => "\n"
    case DNewline => "\n"
    case DEmpty => ""
    case DCat(a, b) => FlatText(a) + FlatText(b)
    case DGroup(body) => FlatText(body)
    case DNest(_, body) => FlatText(body)
    case DAlign(body) => FlatText(body)
    case DAnnotate(_, body) => FlatText(body)
    case DIfFlat(a, _) => FlatText(a)
    case DGutter(t) => " " + t + " "
    case DBold(body) => FlatText(body)
    case DItalic(body) => FlatText(body)
  }

  lemma {:induction false} EmptyText()
    ensures TextOf([]) == ""
  {
  }

  /** In flat mode a flattenable block that finishes has output exactly its flat text, on the current line. */
  lemma {:induction false} FlatLayout(d: Doc, st: PState)
    requires Flattenable(d) && st.isFlat
    ensures var r := Exec(d, st);
      !r.bad ==> r.st.curLineLen == st.curLineLen + |FlatText(d)| && TextOf(r.st.output) == TextOf(st.output) + FlatText(d)
    decreases d, 1
  {
    var r := Exec(d, st);
    match d
    case DText(t) =>
      TextOfSnoc(st.output, OText(t));
    case DSpace(w) =>
      TextOfSnoc(st.output, OSpace(w));
    case DEmpty =>
    case DCat(a, b) =>
      FlatCat(a, b, st);
    case DGroup(body) =>
      FlatLayout(body, st);
    case DAlign(body) =>
      FlatLayout(body, st.(nesting := st.curLineLen));
    case DAnnotate(ann, body) =>
      FlatAnnotated(ann, body, st);
    case DIfFlat(a, _) =>
      FlatLayout(a, st);
    case DGutter(t) =>
      FlatGutter(t, st);
    case DBold(body) =>
      if st.format.bold {
        FlatLayout(body, st);
      } else {
        FlatAnnotated(BoldAnn, body, st);
      }
    case DItalic(body) =>
      if st.format.italic {
        FlatLayout(body, st);
      } else {
        FlatAnnotated(ItalicAnn, body, st);
      }
  }

  lemma {:induction false} FlatCat(a: Doc, b: Doc, st: PState)
    requires Flattenable(a) && Flattenable(b) && st.isFlat
    ensures var r := Exec(DCat(a, b), st);
      !r.bad ==>
        r.st.curLineLen == st.curLineLen + |FlatText(a) + FlatText(b)|
        && TextOf(r.st.output) == TextOf(st.output) + (FlatText(a) + FlatText(b))
    decreases DCat(a, b), 0
  {
    FlatLayout(a, st);
    ExecKeeps(a, st);
    var ra := Exec(a, st);
    if !ra.bad {
      FlatLayout(b, ra.st);
    }
  }

  lemma {:induction false} FlatGutter(t: string, st: PState)
    requires st.isFlat
    ensures var r := Gutter(t, st);
      !r.bad ==> r.st.curLineLen == st.curLineLen + |t| + 2 && TextOf(r.st.output) == TextOf(st.output) + " " + t + " "
  {
    var r := Gutter(t, st);
    var r1 := Chunk(OSpace(SpaceWidth), SpaceWidth, st);
    var r2 := Chunk(OText(t), |t|, r1.st);
    if !r.bad {
      TextOfSnoc(st.output, OSpace(SpaceWidth));
      TextOfSnoc(r1.st.output, OText(t));
      TextOfSnoc(r2.st.output, OSpace(SpaceWidth));
    }
  }

  lemma {:induction false} FlatAnnotated(ann: Ann, body: Doc, st: PState)
    requires Flattenable(body) && st.isFlat
    ensures var r := Annotated(ann, body, st);
      !r.bad ==> r.st.curLineLen == st.curLineLen + |FlatText(body)| && TextOf(r.st.output) == TextOf(st.output) + FlatText(body)
    decreases body, 2
  {
    var inner := st.(format := FormatPlus(st.format, ann.delta), output := []);
    FlatLayout(body, inner);
    EmptyText();
    TextOfSnoc(st.output, OAnnotated(ann, OSeq(Exec(body, inner).st.output)));
  }

  /**
   * In flat mode a flattenable block whose text fits within a bound `B` on
   * the line, with the indentation also within `B`, twice `B` within the
   * width and `B` within the ribbon, never throws `Bad`.
   */
  lemma {:induction false} FlatNoFail(d: Doc, st: PState, B: int)
    requires Flattenable(d) && st.isFlat
    requires st.nesting <= B && st.curLineLen + |FlatText(d)| <= B && 2 * B <= st.maxWidth && B <= st.maxRibbon
    ensures !Exec(d, st).bad
    decreases d
  {
    match d
    case DText(_) =>
    case DSpace(_) =>
    case DEmpty =>
    case DCat(a, b) =>
      FlatNoFail(a, st, B);
      FlatLayout(a, st);
      ExecKeeps(a, st);
      FlatNoFail(b, Exec(a, st).st, B);
    case DGroup(body) =>
      FlatNoFail(body, st, B);
    case DAlign(body) =>
      FlatNoFail(body, st.(nesting := st.curLineLen), B);
    case DAnnotate(ann, body) =>
      FlatNoFail(body, st.(format := FormatPlus(st.format, ann.delta), output := []), B);
    case DIfFlat(a, _) =>
      FlatNoFail(a, st, B);
    case DGutter(t) =>
    case DBold(body) =>
      FlatNoFail(body, st, B);
      FlatNoFail(body, st.(format := FormatPlus(st.format, BoldAnn.delta), output := []), B);
    case DItalic(body) =>
      FlatNoFail(body, st, B);
      FlatNoFail(body, st.(format := FormatPlus(st.format, ItalicAnn.delta), output := []), B);
  }

  /** A group whose flat text fits is laid out flat, on the current line, and leaves the printer in break mode as before. */
  lemma {:induction false} GroupFits(d: Doc, st: PState, B: int)
    requires Flattenable(d) && !st.isFlat
    requires st.nesting <= B && st.curLineLen + |FlatText(d)| <= B && 2 * B <= st.maxWidth && B <= st.maxRibbon
    ensures var r := Exec(DGroup(d), st);
      !r.bad && r.st == st.(output := r.st.output, curLineLen := st.curLineLen + |FlatText(d)|)
      && TextOf(r.st.output) == TextOf(st.output) + FlatText(d)
  {
    var flat := st.(canFail := true, isFlat := true);
    FlatNoFail(d, flat, B);
    FlatLayout(d, flat);
    ExecKeeps(d, flat);
  }

  /** A group whose flat text overruns the ribbon is laid out in break mode, from where it started, as if it were not grouped. */
  lemma {:induction false} GroupBreaks(d: Doc, st: PState)
    requires Flattenable(d) && !st.isFlat
    requires 0 <= st.maxRibbon && st.curLineLen <= st.maxRibbon < st.curLineLen + |FlatText(d)|
    ensures Exec(DGroup(d), st) == Exec(d, st)
  {
    var flat := st.(canFail := true, isFlat := true);
    FitsRibbon(d, flat);
    FlatLayout(d, flat);
  }

  // ---------------------------------------------------------------------------
  // The two faults of `grouped` and `italic` as written
  // ---------------------------------------------------------------------------

  /**
   * `grouped` as written keeps what the failed flat attempt output: the text
   * "aaaa" of a group of "aaaa" and "bbbb" that overruns a ribbon of 6 shows
   * twice, and the line is counted as 12 long.
   */
  lemma {:induction false} GroupedAsWrittenRepeats()
    ensures var st := Initial(80, 6);
      var body := DCat(DText("aaaa"), DText("bbbb"));
      GroupedAsWritten(body, st) == Res(false, st.(output := [OText("aaaa"), OText("aaaa"), OText("bbbb")], curLineLen := 12))
      && Grouped(body, st) == Res(false, st.(output := [OText("aaaa"), OText("bbbb")], curLineLen := 8))
  {
    var st := Initial(80, 6);
    var body := DCat(DText("aaaa"), DText("bbbb"));
    var flat := st.(canFail := true, isFlat := true);
    var partial := flat.(output := [OText("aaaa")], curLineLen := 4);
    FlatAttemptStops(flat, partial);
    assert Exec(body, flat) == Res(true, partial);
    var again := partial.(canFail := false, isFlat := false);
    BreakRun([OText("aaaa")], 4, again);
    BreakRun([], 0, st);
  }

  /** The flat attempt of the group above: "aaaa" fits a ribbon of 6, "bbbb" after it does not. */
  lemma {:induction false} FlatAttemptStops(flat: PState, partial: PState)
    requires flat == Initial(80, 6).(canFail := true, isFlat := true)
    requires partial == flat.(output := [OText("aaaa")], curLineLen := 4)
    ensures Exec(DText("aaaa"), flat) == Res(false, partial)
    ensures Exec(DText("bbbb"), partial).bad
  {
    assert |"aaaa"| == 4 && |"bbbb"| == 4;
  }

  /** Outside flat mode both texts are output after what is there. */
  lemma {:induction false} BreakRun(before: seq<Out>, len: int, st: PState)
    requires !st.canFail && st.output == before && st.curLineLen == len
    ensures Exec(DCat(DText("aaaa"), DText("bbbb")), st)
      == Res(false, st.(output := before + [OText("aaaa"), OText("bbbb")], curLineLen := len + 8))
  {
    assert |"aaaa"| == 4 && |"bbbb"| == 4;
    assert before + [OText("aaaa")] + [OText("bbbb")] == before + [OText("aaaa"), OText("bbbb")];
  }

  /** `bold` outside bold text wraps what its body outputs under a format with bold on. */
  lemma {:induction false} BoldWraps(body: Doc, st: PState)
    requires !st.format.bold
    ensures Exec(DBold(body), st).st.output
      == st.output + [OAnnotated(BoldAnn, OSeq(Exec(body, st.(format := st.format.(bold := true), output := [])).st.output))]
  {
    assert FormatPlus(st.format, BoldAnn.delta) == st.format.(bold := true);
  }

  /** `italic` as written annotates with a delta that turns bold on, so a `bold` inside it adds no annotation of its own. */
  lemma {:induction false} ItalicAsWrittenDropsBold(body: Doc, st: PState)
    requires !st.format.italic && !st.format.bold
    ensures ItalicAsWritten(DBold(body), st).st.output
      == st.output + [OAnnotated(ItalicAnnAsWritten, OSeq(Exec(body, st.(format := st.format.(bold := true), output := [])).st.output))]
  {
    var inner := st.(format := FormatPlus(st.format, ItalicAnnAsWritten.delta), output := []);
    assert inner == st.(format := st.format.(bold := true), output := []);
    assert Exec(DBold(body), inner) == Exec(body, inner);
  }

  /** `italic` turns italics on and leaves every other field of the format alone, so a `bold` inside it still annotates. */
  lemma {:induction false} ItalicKeepsBold(body: Doc, st: PState)
    requires !st.format.italic && !st.format.bold
    ensures FormatPlus(st.format, ItalicAnn.delta) == st.format.(italic := true)
    ensures Exec(DItalic(DBold(body)), st).st.output
      == st.output + [OAnnotated(ItalicAnn, OSeq([OAnnotated(BoldAnn, OSeq(
           Exec(body, st.(format := st.format.(italic := true, bold := true), output := [])).st.output))]))]
  {
    var inner := st.(format := st.format.(italic := true), output := []);
    assert FormatPlus(st.format, ItalicAnn.delta) == inner.format;
    assert Exec(DItalic(DBold(body)), st) == Annotated(ItalicAnn, DBold(body), st);
    BoldWraps(body, inner);
    var both := st.(format := st.format.(italic := true, bold := true), output := []);
    assert inner.(format := inner.format.(bold := true), output := []) == both;
    var x := OAnnotated(BoldAnn, OSeq(Exec(body, both).st.output));
    assert Exec(DBold(body), inner).st.output == [] + [x] == [x];
  }

  // ---------------------------------------------------------------------------
  // Combinators
  // ---------------------------------------------------------------------------

  /** `intersperse(delim, docs)`: the blocks in order, with `delim` between each two. */
  function Interleave(delim: Doc, docs: seq<Doc>): Doc
    decreases |docs|
  {
    if |docs| == 0 then DEmpty
    else if |docs| == 1 then docs[0]
    else DCat(Interleave(delim, docs[..|docs| - 1]), DCat(delim, docs[|docs| - 1]))
  }

  /** `hsep`: separated by one blank. */
  function Hsep(docs: seq<Doc>): Doc { Interleave(DText(" "), docs) }

  /** `vsep`: separated by line breaks. */
  function Vsep(docs: seq<Doc>): Doc { Interleave(DNewline, docs) }

  /** `hvsep`: one line if the group fits, otherwise one per line. */
  function Hvsep(docs: seq<Doc>): Doc { DGroup(Interleave(DIfFlat(DSpace(SpaceWidth), DNewline), docs)) }

  /** `hsepTight`: nothing between the blocks if the group fits, otherwise one blank. */
  function HsepTight(docs: seq<Doc>): Doc { DGroup(Interleave(DIfFlat(DEmpty, DSpace(SpaceWidth)), docs)) }

  /** `hvsepTight`: nothing between the blocks if the group fits, otherwise line breaks. */
  function HvsepTight(docs: seq<Doc>): Doc { DGroup(Interleave(DIfFlat(DEmpty, DNewline), docs)) }

  /** `expr`: an aligned group. */
  function Expr(d: Doc): Doc { DAlign(DGroup(d)) }

  predicate AllFlattenable(docs: seq<Doc>)
  {
    forall i :: 0 <= i < |docs| ==> Flattenable(docs[i])
  }

  function FlatTexts(docs: seq<Doc>): (ys: seq<string>)
    ensures |ys| == |docs| && forall i :: 0 <= i < |docs| ==> ys[i] == FlatText(docs[i])
  {
    seq(|docs|, i requires 0 <= i < |docs| => FlatText(docs[i]))
  }

  /** Flat, the blocks show their texts joined by the delimiter's text: the delimiter goes between neighbours only. */
  lemma {:induction false} InterleaveFlat(delim: Doc, docs: seq<Doc>)
    ensures FlatText(Interleave(delim, docs)) == Parsing.Join(FlatTexts(docs), FlatText(delim))
    ensures AllFlattenable(docs) && (|docs| >= 2 ==> Flattenable(delim)) ==> Flattenable(Interleave(delim, docs))
    decreases |docs|
  {
    var n := |docs|;
    if n >= 2 {
      InterleaveFlat(delim, docs[..n - 1]);
      assert FlatTexts(docs[..n - 1]) == FlatTexts(docs)[..n - 1];
    } else if n == 1 {
      assert FlatTexts(docs) == [FlatText(docs[0])];
    } else {
      assert FlatTexts(docs) == [];
    }
  }

  /** The blocks `oxfordBy` lays out, in an aligned group. */
  function OxfordBy(conj: string, docs: seq<Doc>): Doc
  {
    DGroup(DAlign(OxfordItems(conj, docs)))
  }

  /** "nothing", one block, two around the guttered conjunction, or the list with commas. */
  function OxfordItems(conj: string, docs: seq<Doc>): Doc
  {
    var n := |docs|;
    if n == 0 then DText("nothing")
    else if n == 1 then docs[0]
    else if n == 2 then DCat(docs[0], DCat(DGutter(conj), docs[1]))
    else OxfordList(conj, docs, n)
  }

  /** The first `k` blocks of the list, each with what follows it. */
  function OxfordList(conj: string, docs: seq<Doc>, k: nat): Doc
    requires k <= |docs|
  {
    if k == 0 then DEmpty
    else DCat(OxfordList(conj, docs, k - 1), DCat(docs[k - 1], OxfordAfter(conj, |docs|, k - 1)))
  }

  /** After block `i` of `n`: nothing after the last, a comma and the guttered conjunction before it, a comma and a break elsewhere. */
  function OxfordAfter(conj: string, n: nat, i: nat): Doc
  {
    if i == n - 1 then DEmpty
    else if i == n - 2 then DCat(DText(","), DGutter(conj))
    else DCat(DText(","), DIfFlat(DSpace(SpaceWidth), DNewline))
  }

  /** Flat, the first `k` blocks of a list of three or more, up to the one before the last, each followed by ", ". */
  lemma {:induction false} OxfordListFlat(conj: string, docs: seq<Doc>, k: nat)
    requires 3 <= |docs| && k <= |docs| - 2
    ensures FlatText(OxfordList(conj, docs, k)) == Parsing.Commas(FlatTexts(docs)[..k])
    ensures AllFlattenable(docs) ==> Flattenable(OxfordList(conj, docs, k))
  {
    if k > 0 {
      OxfordListFlat(conj, docs, k - 1);
      var ys := FlatTexts(docs);
      assert ys[..k][..k - 1] == ys[..k - 1];
      assert FlatText(OxfordAfter(conj, |docs|, k - 1)) == ", ";
    }
  }

  /** Flat, two blocks show around the conjunction. */
  lemma {:induction false} OxfordTwoFlat(conj: string, docs: seq<Doc>)
    requires |docs| == 2
    ensures FlatText(OxfordItems(conj, docs)) == FlatText(docs[0]) + " " + conj + " " + FlatText(docs[1])
    ensures AllFlattenable(docs) ==> Flattenable(OxfordItems(conj, docs))
  {
    var tail := DCat(DGutter(conj), docs[1]);
    assert FlatText(tail) == " " + conj + " " + FlatText(docs[1]);
    assert FlatText(DCat(docs[0], tail)) == FlatText(docs[0]) + FlatText(tail);
  }

  /** Flat, one more block of the list adds its text and what follows it. */
  lemma {:induction false} OxfordListStep(conj: string, docs: seq<Doc>, k: nat)
    requires 1 <= k <= |docs|
    ensures FlatText(OxfordList(conj, docs, k))
      == FlatText(OxfordList(conj, docs, k - 1)) + (FlatText(docs[k - 1]) + FlatText(OxfordAfter(conj, |docs|, k - 1)))
  {
  }

  /** Flat, the last two blocks of a list of three or more: a comma and the conjunction between them. */
  lemma {:induction false} OxfordLastTwo(conj: string, docs: seq<Doc>)
    requires |docs| >= 3
    ensures var ys := FlatTexts(docs); var n := |docs|;
      FlatText(OxfordList(conj, docs, n))
        == FlatText(OxfordList(conj, docs, n - 2)) + (ys[n - 2] + (", " + conj + " ")) + (ys[n - 1] + "")
  {
    var n := |docs|;
    OxfordListStep(conj, docs, n);
    OxfordListStep(conj, docs, n - 1);
    assert FlatText(OxfordAfter(conj, n, n - 2)) == ", " + conj + " ";
    assert FlatText(OxfordAfter(conj, n, n - 1)) == "";
  }

  /** A list of three or more flattenable blocks is flattenable. */
  lemma {:induction false} OxfordManyFlattenable(conj: string, docs: seq<Doc>)
    requires |docs| >= 3 && AllFlattenable(docs)
    ensures Flattenable(OxfordItems(conj, docs))
  {
    var n := |docs|;
    OxfordListFlat(conj, docs, n - 2);
    var a, b := docs[n - 2], docs[n - 1];
    assert Flattenable(a);
    assert Flattenable(b);
    var after := OxfordAfter(conj, n, n - 2);
    assert after == DCat(DText(","), DGutter(conj));
    assert OxfordAfter(conj, n, n - 1) == DEmpty;
    assert OxfordList(conj, docs, n - 1) == DCat(OxfordList(conj, docs, n - 2), DCat(a, after));
    assert OxfordItems(conj, docs) == DCat(OxfordList(conj, docs, n - 1), DCat(b, DEmpty));
    assert Flattenable(DText(","));
    assert Flattenable(DGutter(conj));
    assert Flattenable(after) && Flattenable(DCat(a, after));
    assert Flattenable(OxfordList(conj, docs, n - 1));
    assert Flattenable(DCat(b, DEmpty));
  }

  /** Flat, three or more blocks show with the Oxford comma. */
  lemma {:induction false} OxfordManyFlat(conj: string, docs: seq<Doc>)
    requires |docs| >= 3
    ensures var ys := FlatTexts(docs); var n := |docs|;
      FlatText(OxfordItems(conj, docs)) == Parsing.Commas(ys[..n - 1]) + conj + " " + ys[n - 1]
    ensures AllFlattenable(docs) ==> Flattenable(OxfordItems(conj, docs))
  {
    var n := |docs|;
    var ys := FlatTexts(docs);
    OxfordListFlat(conj, docs, n - 2);
    OxfordLastTwo(conj, docs);
    assert ys[..n - 1][..n - 2] == ys[..n - 2];
    assert Parsing.Commas(ys[..n - 1]) == Parsing.Commas(ys[..n - 2]) + ys[n - 2] + ", ";
    if AllFlattenable(docs) {
      OxfordManyFlattenable(conj, docs);
    }
  }

  /** Flat, `oxfordBy` shows "nothing", the item, two items around the conjunction, or the list with the Oxford comma. */
  lemma {:induction false} OxfordFlat(conj: string, docs: seq<Doc>)
    ensures var ys := FlatTexts(docs); var n := |docs|;
      FlatText(OxfordBy(conj, docs)) ==
        if n == 0 then "nothing"
        else if n == 1 then ys[0]
        else if n == 2 then ys[0] + " " + conj + " " + ys[1]
        else Parsing.Commas(ys[..n - 1]) + conj + " " + ys[n - 1]
    ensures AllFlattenable(docs) ==> Flattenable(OxfordBy(conj, docs))
  {
    var n := |docs|;
    if n >= 3 {
      OxfordManyFlat(conj, docs);
    } else if n == 2 {
      OxfordTwoFlat(conj, docs);
    }
  }

  /** With "or", the flat list is the one the parser's error messages write after their header. */
  lemma {:induction false} OxfordAgrees(docs: seq<Doc>)
    requires |docs| >= 1
    ensures FlatText(OxfordBy("or", docs)) == Parsing.OxfordBody(FlatTexts(docs))
  {
    OxfordFlat("or", docs);
  }

  /** A list that fits is written on the current line, as the parser writes it. */
  lemma {:induction false} OxfordFits(docs: seq<Doc>, st: PState, B: int)
    requires |docs| >= 1 && AllFlattenable(docs) && !st.isFlat
    requires st.nesting <= B && st.curLineLen + |Parsing.OxfordBody(FlatTexts(docs))| <= B && 2 * B <= st.maxWidth && B <= st.maxRibbon
    ensures var r := Exec(OxfordBy("or", docs), st);
      !r.bad && r.st.curLineLen == st.curLineLen + |Parsing.OxfordBody(FlatTexts(docs))|
      && TextOf(r.st.output) == TextOf(st.output) + Parsing.OxfordBody(FlatTexts(docs))
  {
    OxfordAgrees(docs);
    OxfordFlat("or", docs);
    var body := DAlign(OxfordItems("or", docs));
    GroupFits(body, st, B);
  }

  /** `collection(open, close, sep, docs)`: the blocks between the brackets, each after the first led by the separator. */
  function Collection(open: Doc, close: Doc, sep: Doc, docs: seq<Doc>): Doc
  {
    if |docs| == 0 then DCat(open, close)
    else DGroup(HvsepTight([HsepTight([open, DAlign(docs[0])])] + Led(sep, docs[1..]) + [close]))
  }

  /** Each block after the first, led by the separator and a blank. */
  function Led(sep: Doc, docs: seq<Doc>): (r: seq<Doc>)
    ensures |r| == |docs| && forall i :: 0 <= i < |docs| ==> r[i] == Hsep([sep, DAlign(docs[i])])
  {
    seq(|docs|, i requires 0 <= i < |docs| => Hsep([sep, DAlign(docs[i])]))
  }

  /** Strings run together, in order. */
  function Concat(xs: seq<string>): string
  {
    if xs == [] then "" else Concat(xs[..|xs| - 1]) + xs[|xs| - 1]
  }

  lemma {:induction false} JoinNothing(xs: seq<string>)
    ensures Parsing.Join(xs, "") == Concat(xs)
    decreases |xs|
  {
    if |xs| > 1 {
      JoinNothing(xs[..|xs| - 1]);
    } else if |xs| == 1 {
      assert xs[..0] == [];
    }
  }

  /** The first text prefixed, then every later one led by `sep`, run together: the texts joined by `sep` after the prefix. */
  lemma {:induction false} LedConcat(first: string, sep: string, ys: seq<string>, k: nat)
    requires 1 <= k <= |ys|
    ensures Concat([first + ys[0]] + seq(k - 1, i requires 0 <= i < k - 1 => sep + ys[i + 1]))
      == first + Parsing.Join(ys[..k], sep)
  {
    var zs := [first + ys[0]] + seq(k - 1, i requires 0 <= i < k - 1 => sep + ys[i + 1]);
    if k == 1 {
      assert zs == [first + ys[0]];
      assert zs[..0] == [];
      assert ys[..1] == [ys[0]];
    } else {
      LedConcat(first, sep, ys, k - 1);
      var shorter := [first + ys[0]] + seq(k - 2, i requires 0 <= i < k - 2 => sep + ys[i + 1]);
      assert zs[..k - 1] == shorter;
      assert zs[k - 1] == sep + ys[k - 1];
      assert ys[..k][..k - 1] == ys[..k - 1];
    }
  }

  /** Flat, the first entry of a collection is the open bracket right before the first block. */
  lemma {:induction false} HeadFlat(open: Doc, first: Doc)
    ensures FlatText(HsepTight([open, DAlign(first)])) == FlatText(open) + FlatText(first)
  {
    var pair := [open, DAlign(first)];
    var delim := DIfFlat(DEmpty, DSpace(SpaceWidth));
    assert pair[..1] == [open];
    assert Interleave(delim, pair) == DCat(open, DCat(delim, DAlign(first)));
    assert FlatText(DCat(delim, DAlign(first))) == "" + FlatText(first) == FlatText(first);
    assert FlatText(HsepTight(pair)) == FlatText(Interleave(delim, pair));
  }

  /** Flat, each later entry is the separator, a blank and the block. */
  lemma {:induction false} LedFlat(sep: Doc, docs: seq<Doc>)
    ensures FlatTexts(Led(sep, docs)) == seq(|docs|, i requires 0 <= i < |docs| => FlatText(sep) + " " + FlatText(docs[i]))
  {
    var got := FlatTexts(Led(sep, docs));
    var want := seq(|docs|, i requires 0 <= i < |docs| => FlatText(sep) + " " + FlatText(docs[i]));
    forall i | 0 <= i < |docs|
      ensures got[i] == want[i]
    {
      LedEntryFlat(sep, docs[i]);
    }
  }

  /** One led entry, flat. */
  lemma {:induction false} LedEntryFlat(sep: Doc, d: Doc)
    ensures FlatText(Hsep([sep, DAlign(d)])) == FlatText(sep) + " " + FlatText(d)
  {
    var pair := [sep, DAlign(d)];
    assert pair[..1] == [sep];
    assert Interleave(DText(" "), pair[..1]) == sep;
    assert Hsep(pair) == DCat(sep, DCat(DText(" "), DAlign(d)));
    assert FlatText(DCat(DText(" "), DAlign(d))) == " " + FlatText(d);
    assert FlatText(sep) + (" " + FlatText(d)) == FlatText(sep) + " " + FlatText(d);
  }

  /** Flat, the entries of a non-empty collection show as the open bracket with the first text, then each later text led by the separator, then the close bracket. */
  lemma {:induction false} EntriesFlat(open: Doc, close: Doc, sep: Doc, docs: seq<Doc>)
    requires |docs| > 0
    ensures FlatTexts([HsepTight([open, DAlign(docs[0])])] + Led(sep, docs[1..]) + [close]) == Entries(open, close, sep, docs)
  {
    var n := |docs|;
    var items := [HsepTight([open, DAlign(docs[0])])] + Led(sep, docs[1..]) + [close];
    var want := Entries(open, close, sep, docs);
    var got := FlatTexts(items);
    EntryFlat(open, close, sep, docs, 0);
    assert |got| == |want|;
    forall i | 0 <= i <= n
      ensures got[i] == want[i]
    {
      EntryFlat(open, close, sep, docs, i);
    }
  }

  /**
   * The flat entries of a non-empty collection: the open bracket with the
   * first text, each later text led by the separator and a blank, and the
   * close bracket.
   */
  function Entries(open: Doc, close: Doc, sep: Doc, docs: seq<Doc>): seq<string>
    requires |docs| > 0
  {
    var ys := FlatTexts(docs); var sp := FlatText(sep) + " ";
    [FlatText(open) + ys[0]] + seq(|docs| - 1, i requires 0 <= i < |docs| - 1 => sp + ys[i + 1]) + [FlatText(close)]
  }

  /** One entry of a non-empty collection, flat. */
  lemma {:induction false} EntryFlat(open: Doc, close: Doc, sep: Doc, docs: seq<Doc>, i: nat)
    requires 0 < |docs| && i <= |docs|
    ensures |Entries(open, close, sep, docs)| == |docs| + 1
    ensures FlatText(([HsepTight([open, DAlign(docs[0])])] + Led(sep, docs[1..]) + [close])[i]) == Entries(open, close, sep, docs)[i]
  {
    var n := |docs|;
    var ys := FlatTexts(docs);
    var sp := FlatText(sep) + " ";
    var led := Led(sep, docs[1..]);
    var mid := seq(n - 1, j requires 0 <= j < n - 1 => sp + ys[j + 1]);
    assert Entries(open, close, sep, docs) == [FlatText(open) + ys[0]] + mid + [FlatText(close)];
    Bracketed(HsepTight([open, DAlign(docs[0])]), led, close, i);
    Bracketed(FlatText(open) + ys[0], mid, FlatText(close), i);
    if i == 0 {
      HeadFlat(open, docs[0]);
    } else if i < n {
      assert docs[1..][i - 1] == docs[i];
      assert led[i - 1] == Hsep([sep, DAlign(docs[i])]);
      LedEntryFlat(sep, docs[i]);
    }
  }

  /** Where an index lands in a sequence between a first and a last element. */
  lemma {:induction false} Bracketed<T>(first: T, middle: seq<T>, last: T, i: nat)
    requires i <= |middle| + 1
    ensures var s := [first] + middle + [last];
      s[i] == if i == 0 then first else if i <= |middle| then middle[i - 1] else last
  {
  }

  lemma {:induction false} ConcatSnoc(xs: seq<string>, x: string)
    ensures Concat(xs + [x]) == Concat(xs) + x
  {
    assert (xs + [x])[..|xs|] == xs;
  }

  /** Flat, `hvsepTight` runs its blocks' texts together. */
  lemma {:induction false} HvsepTightFlat(docs: seq<Doc>)
    ensures FlatText(HvsepTight(docs)) == Concat(FlatTexts(docs))
  {
    InterleaveFlat(DIfFlat(DEmpty, DNewline), docs);
    JoinNothing(FlatTexts(docs));
  }

  /** Flat, a collection is the open bracket, the texts joined by the separator and a blank, then the close bracket. */
  lemma {:induction false} CollectionFlat(open: Doc, close: Doc, sep: Doc, docs: seq<Doc>)
    ensures FlatText(Collection(open, close, sep, docs))
      == FlatText(open) + Parsing.Join(FlatTexts(docs), FlatText(sep) + " ") + FlatText(close)
  {
    var n := |docs|;
    if n > 0 {
      var ys := FlatTexts(docs);
      var sp := FlatText(sep) + " ";
      var items := [HsepTight([open, DAlign(docs[0])])] + Led(sep, docs[1..]) + [close];
      var led := [FlatText(open) + ys[0]] + seq(n - 1, i requires 0 <= i < n - 1 => sp + ys[i + 1]);
      calc {
        FlatText(Collection(open, close, sep, docs));
        FlatText(HvsepTight(items));
        { HvsepTightFlat(items); }
        Concat(FlatTexts(items));
        { EntriesFlat(open, close, sep, docs); }
        Concat(Entries(open, close, sep, docs));
        { assert Entries(open, close, sep, docs) == led + [FlatText(close)]; }
        Concat(led + [FlatText(close)]);
        { ConcatSnoc(led, FlatText(close)); }
        Concat(led) + FlatText(close);
        { LedConcat(FlatText(open), sp, ys, n); assert ys[..n] == ys; }
        FlatText(open) + Parsing.Join(ys, sp) + FlatText(close);
      }
    }
  }
}

/**
 * The printer of src/pretty.kt as an object whose fields its methods update.
 * Each method returns whether it threw `Bad`; the restoring `finally` blocks
 * run either way, as in the source.
 */
module PrettyObjects {
  import opened Layout

  class Pretty {
    var maxWidth: int
    var maxRibbon: int
    var nesting: int
    var isFlat: bool
    var canFail: bool
    var format: Format
    var curLineLen: int
    var output: seq<Out>

    /** The fields as a value. */
    function Snapshot(): PState
      reads this
    {
      PState(maxWidth, maxRibbon, nesting, isFlat, canFail, format, curLineLen, output)
    }

    constructor(maxWidth: int, maxRibbon: int)
      ensures Snapshot() == Initial(maxWidth, maxRibbon)
    {
      this.maxWidth := maxWidth;
      this.maxRibbon := maxRibbon;
      nesting := 0;
      isFlat := false;
      canFail := false;
      format := DefaultFormat;
      curLineLen := 0;
      output := [];
    }

    /** `chunk(c)`. */
    method Chunk(o: Out, len: int) returns (bad: bool)
      modifies this
      ensures Res(bad, Snapshot()) == Layout.Chunk(o, len, old(Snapshot()))
    {
      var newLineLen := curLineLen + len;
      if canFail && (nesting + newLineLen > maxWidth || newLineLen > maxRibbon) {
        return true;
      }
      output := output + [o];
      curLineLen := newLineLen;
      bad := false;
    }

    /** `text(t)`. */
    method Text(t: string) returns (bad: bool)
      modifies this
      ensures Res(bad, Snapshot()) == Exec(DText(t), old(Snapshot()))
    {
      bad := Chunk(OText(t), |t|);
    }

    /** `space(w)`. */
    method Space(w: int) returns (bad: bool)
      modifies this
      ensures Res(bad, Snapshot()) == Exec(DSpace(w), old(Snapshot()))
    {
      bad := Chunk(OSpace(w), w);
    }

    /** `hardLine`. */
    method HardLine()
      modifies this
      ensures Snapshot() == Layout.HardLine(old(Snapshot()))
    {
      output := output + [ONewline];
      curLineLen := 0;
    }

    /** `newline`. */
    method Newline() returns (bad: bool)
      modifies this
      ensures Res(bad, Snapshot()) == Exec(DNewline, old(Snapshot()))
    {
      HardLine();
      bad := Space(nesting);
    }

    /** Run a block on this printer. */
    method Run(d: Doc) returns (bad: bool)
      modifies this
      ensures Res(bad, Snapshot()) == Exec(d, old(Snapshot()))
      decreases d, 0
    {
      match d
      case DText(t) =>
        bad := Text(t);
      case DSpace(w) =>
        bad := Space(w);
      case DHardLine =>
        HardLine();
        bad := false;
      case DNewline =>
        bad := Newline();
      case DEmpty =>
        bad := false;
      case DCat(a, b) =>
        bad := Run(a);
        if !bad {
          bad := Run(b);
        }
      case DGroup(body) =>
        bad := Grouped(body);
      case DNest(w, body) =>
        bad := Nest(w, body);
      case DAlign(body) =>
        bad := Align(body);
      case DAnnotate(ann, body) =>
        bad := Annotate(ann, body);
      case DIfFlat(a, b) =>
        if isFlat {
          bad := Run(a);
        } else {
          bad := Run(b);
        }
      case DGutter(t) =>
        bad := Guttered(t);
      case DBold(body) =>
        bad := Bold(body);
      case DItalic(body) =>
        bad := Italic(body);
    }

    /**
     * `grouped(body)`: a flat attempt that throws `Bad` is undone, output and
     * line length included, before the body is laid out in break mode.
     */
    method Grouped(body: Doc) returns (bad: bool)
      modifies this
      ensures Res(bad, Snapshot()) == Layout.Grouped(body, old(Snapshot()))
      decreases body, 1
    {
      if isFlat {
        bad := Run(body);
        return;
      }
      ghost var start := Snapshot();
      var oldCanFail := canFail;
      var oldOutput := output;
      var oldLineLen := curLineLen;
      canFail := true;
      isFlat := true;
      bad := Run(body);
      ExecKeeps(body, start.(canFail := true, isFlat := true));
      canFail := oldCanFail;
      isFlat := false;
      if bad {
        output := oldOutput;
        curLineLen := oldLineLen;
        assert Snapshot() == start;
        bad := Run(body);
      }
    }

    /** `nest(w, body)`. */
    method Nest(w: int, body: Doc) returns (bad: bool)
      modifies this
      ensures Res(bad, Snapshot()) == Nested(w, body, old(Snapshot()))
      decreases body, 1
    {
      var oldNesting := nesting;
      nesting := nesting + w;
      bad := Run(body);
      nesting := oldNesting;
    }

    /** `align(body)`. */
    method Align(body: Doc) returns (bad: bool)
      modifies this
      ensures Res(bad, Snapshot()) == Exec(DAlign(body), old(Snapshot()))
      decreases body, 2
    {
      bad := Nest(curLineLen - nesting, body);
    }

    /** `annotate(ann, body)`. */
    method Annotate(ann: Ann, body: Doc) returns (bad: bool)
      modifies this
      ensures Res(bad, Snapshot()) == Annotated(ann, body, old(Snapshot()))
      decreases body, 1
    {
      var oldOutput := output;
      var oldFormat := format;
      format := FormatPlus(format, ann.delta);
      output := [];
      bad := Run(body);
      output := oldOutput + [OAnnotated(ann, OSeq(output))];
      format := oldFormat;
    }

    /** `guttered(t)`. */
    method Guttered(t: string) returns (bad: bool)
      modifies this
      ensures Res(bad, Snapshot()) == Gutter(t, old(Snapshot()))
    {
      if isFlat {
        bad := Space(SpaceWidth);
      } else {
        HardLine();
        var delta := |t| + SpaceWidth;
        bad := Space(if nesting >= delta then nesting - delta else nesting);
      }
      if !bad {
        bad := Text(t);
        if !bad {
          bad := Space(SpaceWidth);
        }
      }
    }

    /** `bold(body)`. */
    method Bold(body: Doc) returns (bad: bool)
      modifies this
      ensures Res(bad, Snapshot()) == Exec(DBold(body), old(Snapshot()))
      decreases body, 2
    {
      if format.bold {
        bad := Run(body);
      } else {
        bad := Annotate(BoldAnn, body);
      }
    }

    /** `italic(body)`, with the delta that records italics. */
    method Italic(body: Doc) returns (bad: bool)
      modifies this
      ensures Res(bad, Snapshot()) == Exec(DItalic(body), old(Snapshot()))
      decreases body, 2
    {
      if format.italic {
        bad := Run(body);
      } else {
        bad := Annotate(ItalicAnn, body);
      }
    }

    /** `intersperse(delim, docs)`: each block, with `delim` run before every block but the first. */
    method Intersperse(delim: Doc, docs: seq<Doc>) returns (bad: bool)
      modifies this
      ensures Res(bad, Snapshot()) == Exec(Interleave(delim, docs), old(Snapshot()))
    {
      ghost var start := Snapshot();
      var first := true;
      var i := 0;
      bad := false;
      while i < |docs| && !bad
        invariant 0 <= i <= |docs|
        invariant first <==> i == 0
        invariant Res(bad, Snapshot()) == Exec(Interleave(delim, docs[..i]), start)
      {
        InterleaveStep(delim, docs, i, start);
        if first {
          first := false;
        } else {
          bad := Run(delim);
        }
        if !bad {
          bad := Run(docs[i]);
        }
        i := i + 1;
      }
      if bad {
        InterleaveStopped(delim, docs, i, start);
      }
      assert docs[..|docs|] == docs;
    }
  }

  /** Running one more block: the delimiter unless it is the first, then the block, unless something threw `Bad`. */
  lemma {:induction false} InterleaveStep(delim: Doc, docs: seq<Doc>, i: nat, st: PState)
    requires i < |docs|
    ensures var prev := Exec(Interleave(delim, docs[..i]), st);
      Exec(Interleave(delim, docs[..i + 1]), st) ==
        if i == 0 then Exec(docs[0], st)
        else if prev.bad then prev
        else var d := Exec(delim, prev.st); if d.bad then d else Exec(docs[i], d.st)
  {
    var next := docs[..i + 1];
    assert next[..i] == docs[..i] && next[i] == docs[i];
    if i == 0 {
      assert Interleave(delim, next) == docs[0];
    } else {
      assert Interleave(delim, next) == DCat(Interleave(delim, docs[..i]), DCat(delim, docs[i]));
    }
  }

  /** Once running the first `i` blocks has thrown `Bad`, running them all throws it with the same fields. */
  lemma {:induction false} InterleaveStopped(delim: Doc, docs: seq<Doc>, i: nat, st: PState)
    requires i <= |docs| && Exec(Interleave(delim, docs[..i]), st).bad
    ensures Exec(Interleave(delim, docs), st) == Exec(Interleave(delim, docs[..i]), st)
    decreases |docs| - i
  {
    if i < |docs| {
      assert docs[..i + 1][..i] == docs[..i];
      InterleaveStopped(delim, docs, i + 1, st);
    } else {
      assert docs[..i] == docs;
    }
  }

  /** `prep`: run a document on a fresh printer and collect what it output. */
  method Prep(maxWidth: int, maxRibbon: int, d: Doc) returns (o: Out)
    ensures o == Layout.Prep(maxWidth, maxRibbon, d)
  {
    var printer := new Pretty(maxWidth, maxRibbon);
    var bad := printer.Run(d);
    o := OSeq(printer.output);
  }
}

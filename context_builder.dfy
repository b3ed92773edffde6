/**
  The context builder of the study-content router: it normalises a slide's raw
  text into its non-blank lines, a title, the remaining points and a category.
 */
module ContextBuilder {
  import opened Wrappers
  import opened Text

  /** One piece, stripped, if anything is left of it. */
  function KeepOne(piece: string): (kept: seq<string>)
    ensures |kept| <= 1
    ensures forall line :: line in kept ==> line != "" && Trimmed(line, Python)
  {
    var t := PyStrip(piece);
    if t != "" then [t] else []
  }

  /** Strips every piece and keeps the non-empty results, in their order. */
  function KeepNonBlank(pieces: seq<string>): (kept: seq<string>)
    ensures |kept| <= |pieces|
    ensures forall line :: line in kept ==> line != "" && Trimmed(line, Python)
  {
    if pieces == [] then [] else KeepOne(pieces[0]) + KeepNonBlank(pieces[1..])
  }

  /** Keeping non-blank pieces works piecewise. */
  lemma {:induction false} KeepNonBlankAppend(a: seq<string>, b: seq<string>)
    ensures KeepNonBlank(a + b) == KeepNonBlank(a) + KeepNonBlank(b)
  {
    if a == [] {
      assert a + b == b;
    } else {
      assert (a + b)[0] == a[0];
      assert (a + b)[1..] == a[1..] + b;
      KeepNonBlankAppend(a[1..], b);
    }
  }

  /** `[l.strip() for l in raw_text.split("\n") if l.strip()]`. */
  function NonBlankLines(raw: string): (lines: seq<string>)
    ensures forall line :: line in lines ==> line != "" && Trimmed(line, Python)
  {
    KeepNonBlank(SplitStr(raw, "\n"))
  }

  /** The lines of a text joined at a newline are the lines of the first part followed by those of the second: input order is kept. */
  lemma LinesOfJoin(a: string, b: string)
    ensures NonBlankLines(a + "\n" + b) == NonBlankLines(a) + NonBlankLines(b)
  {
    SplitAtOne(a, b, "\n");
    KeepNonBlankAppend(SplitStr(a, "\n"), SplitStr(b, "\n"));
  }

  /** A single line gives its stripped self, or nothing when it is blank. */
  lemma LinesOfOneLine(line: string)
    requires '\n' !in line
    ensures NonBlankLines(line) == if PyStrip(line) == "" then [] else [PyStrip(line)]
  {
    ContainsChar(line, '\n');
    SplitWithoutSep(line, "\n");
    assert SplitStr(line, "\n")[1..] == [];
  }

  /** The normalised slide handed to the prompt builders. */
  datatype Context = Context(rawText: string, lines: seq<string>, title: string, points: seq<string>, category: string)

  /** `build_context`: `category` is the optional argument, `None` when omitted. */
  function BuildContext(rawText: string, category: Option<string>): (ctx: Context)
    ensures ctx.rawText == rawText
    ensures ctx.lines == NonBlankLines(rawText)
    ensures ctx.lines != [] ==> [ctx.title] + ctx.points == ctx.lines
    ensures ctx.lines == [] ==> ctx.title == "" && ctx.points == []
    ensures ctx.category != ""
    ensures ctx.category == (if category.Some? && category.value != "" then category.value else "unknown")
  {
    var lines := NonBlankLines(rawText);
    Context(
      rawText,
      lines,
      if |lines| > 0 then lines[0] else "",
      if |lines| > 1 then lines[1..] else [],
      // Python `category or "unknown"`: None and "" are both falsy
      match category
      case Some(c) => if c != "" then c else "unknown"
      case None => "unknown"
    )
  }
}

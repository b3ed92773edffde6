/**
  JavaScript's `String.prototype.split` with a regular expression, for the four
  expressions the quiz view splits its text with. Each expression is written as
  a matcher that says where a match starting at a given index ends; none of
  them can match the empty string, and for each the regex engine's
  backtracking cannot find a second way to match (every optional part and every
  greedy run is followed by a character its own class excludes), so "where the
  greedy match ends" is all there is to know.
 */
module JsSplit {
  import opened Wrappers
  import opened Text

  /** The split delimiters of the quiz view. */
  datatype Delimiter =
    /** `/(?:^|\n)(?:\d+[).]\s*)?(?:\*\*|#+\s*)?Question:/gi` */
    | QuestionHeader
    /** `/\s+A[).]\s+/`, `/\s+B[).]\s+/` and `/\s+C[).]\s+/`: the letter is matched case-sensitively. */
    | OptionMarker(letter: char)
    /** `\s+Correct Answer:\s*`, with the `i` flag. */
    | CorrectAnswerMarker

  /** Regex `\d`. */
  predicate IsDigit(c: char) {
    '0' <= c <= '9'
  }

  /** End of the greedy run of `\s` (JavaScript whitespace) from `i`. */
  function SpaceEnd(s: string, i: nat): (j: nat)
    requires i <= |s|
    ensures i <= j <= |s|
    ensures j == |s| || !IsJsSpace(s[j])
    decreases |s| - i
  {
    if i < |s| && IsJsSpace(s[i]) then SpaceEnd(s, i + 1) else i
  }

  /** End of the greedy run of `\d` from `i`. */
  function DigitEnd(s: string, i: nat): (j: nat)
    requires i <= |s|
    ensures i <= j <= |s|
    ensures j == |s| || !IsDigit(s[j])
    decreases |s| - i
  {
    if i < |s| && IsDigit(s[i]) then DigitEnd(s, i + 1) else i
  }

  /** End of the greedy run of `#` from `i`. */
  function HashEnd(s: string, i: nat): (j: nat)
    requires i <= |s|
    ensures i <= j <= |s|
    ensures j == |s| || s[j] != '#'
    decreases |s| - i
  {
    if i < |s| && s[i] == '#' then HashEnd(s, i + 1) else i
  }

  /** `lit` occurs at `i`, compared after ASCII lower-casing (the `i` flag; `lit` is lower-case). */
  predicate LiteralAt(s: string, i: nat, lit: string) {
    i + |lit| <= |s| && Lower(s[i..i + |lit|]) == lit
  }

  /**
    `(?:\d+[).]\s*)?` at `j`: where it ends. Digits not followed by `)` or `.`
    rule the header out (skipping the group leaves a digit where `*`, `#` or
    `Q` must come).
   */
  function Numbering(s: string, j: nat): (k: Option<nat>)
    requires j <= |s|
    ensures k.Some? ==> j <= k.value <= |s|
  {
    if j < |s| && IsDigit(s[j]) then
      var d := DigitEnd(s, j);
      if d < |s| && (s[d] == ')' || s[d] == '.') then Some(SpaceEnd(s, d + 1)) else None
    else Some(j)
  }

  /** `(?:\*\*|#+\s*)?` at `k`: where it ends. */
  function Markdown(s: string, k: nat): (m: nat)
    requires k <= |s|
    ensures k <= m <= |s|
  {
    if k + 2 <= |s| && s[k..k + 2] == "**" then k + 2
    else if k < |s| && s[k] == '#' then SpaceEnd(s, HashEnd(s, k))
    else k
  }

  /** The header after its anchor: numbering, markdown, then `Question:` in any case. */
  function HeaderFrom(s: string, j: nat): (e: Option<nat>)
    requires j <= |s|
    ensures e.Some? ==> j < e.value <= |s|
  {
    match Numbering(s, j)
    case None => None
    case Some(k) =>
      var m := Markdown(s, k);
      if LiteralAt(s, m, "question:") then Some(m + 9) else None
  }

  /**
    Where a header match that starts exactly at `q` ends: `^` (only at index
    0, there is no `m` flag) is tried before `\n`.
   */
  function HeaderMatchAt(s: string, q: nat): (e: Option<nat>)
    requires q <= |s|
    ensures e.Some? ==> q < e.value <= |s|
  {
    var atStart := if q == 0 then HeaderFrom(s, 0) else None;
    if atStart.Some? then atStart
    else if q < |s| && s[q] == '\n' then HeaderFrom(s, q + 1)
    else None
  }

  /** Where an option-marker match that starts exactly at `q` ends. */
  function OptionMatchAt(letter: char, s: string, q: nat): (e: Option<nat>)
    requires q <= |s|
    ensures e.Some? ==> q < e.value <= |s|
  {
    var w := SpaceEnd(s, q);
    if w > q && w + 2 <= |s| && s[w] == letter && (s[w + 1] == ')' || s[w + 1] == '.') && SpaceEnd(s, w + 2) > w + 2 then
      Some(SpaceEnd(s, w + 2))
    else None
  }

  /** Where a "Correct Answer:" match that starts exactly at `q` ends. */
  function AnswerMatchAt(s: string, q: nat): (e: Option<nat>)
    requires q <= |s|
    ensures e.Some? ==> q < e.value <= |s|
  {
    var w := SpaceEnd(s, q);
    if w > q && LiteralAt(s, w, "correct answer:") then Some(SpaceEnd(s, w + 15)) else None
  }

  /**
    Where a match of `d` that starts exactly at `q` ends (the regex is run
    sticky at `q`, as `split` does).
   */
  function MatchAt(d: Delimiter, s: string, q: nat): (e: Option<nat>)
    requires q <= |s|
    ensures e.Some? ==> q < e.value <= |s|
  {
    match d
    case QuestionHeader => HeaderMatchAt(s, q)
    case OptionMarker(letter) => OptionMatchAt(letter, s, q)
    case CorrectAnswerMarker => AnswerMatchAt(s, q)
  }

  /** No match of `d` starts at an index in `[lo, hi)`. */
  predicate NoMatchIn(d: Delimiter, s: string, lo: nat, hi: nat)
    requires hi <= |s|
  {
    forall x :: lo <= x < hi ==> MatchAt(d, s, x).None?
  }

  /**
    The `split` loop from index `q` on, with the current piece starting at `p`:
    at each index the delimiter is tried; a match closes the piece and the
    next piece starts where the match ends.
   */
  function SplitFrom(s: string, d: Delimiter, p: nat, q: nat): (parts: seq<string>)
    requires p <= q <= |s|
    ensures |parts| >= 1
    decreases |s| - q
  {
    if q == |s| then [s[p..]]
    else
      match MatchAt(d, s, q)
      case None => SplitFrom(s, d, p, q + 1)
      case Some(e) => [s[p..q]] + SplitFrom(s, d, e, e)
  }

  /** `s.split(d)`. */
  function Split(s: string, d: Delimiter): (parts: seq<string>)
    ensures |parts| >= 1
  {
    SplitFrom(s, d, 0, 0)
  }

  /** Skipping indexes where nothing matches does not change the pieces. */
  lemma {:induction false} SkipNoMatch(s: string, d: Delimiter, p: nat, q: nat, r: nat)
    requires p <= q <= r <= |s| && NoMatchIn(d, s, q, r)
    ensures SplitFrom(s, d, p, q) == SplitFrom(s, d, p, r)
    decreases r - q
  {
    if q < r {
      SkipOne(s, d, p, q);
      SkipNoMatch(s, d, p, q + 1, r);
    }
  }

  /** An index where nothing matches adds nothing to the current piece's end. */
  lemma SkipOne(s: string, d: Delimiter, p: nat, q: nat)
    requires p <= q < |s| && MatchAt(d, s, q).None?
    ensures SplitFrom(s, d, p, q) == SplitFrom(s, d, p, q + 1)
  {
  }

  /** A string in which the delimiter never matches is left whole. */
  lemma SplitNoMatch(s: string, d: Delimiter)
    requires NoMatchIn(d, s, 0, |s|)
    ensures Split(s, d) == [s]
  {
    SkipNoMatch(s, d, 0, 0, |s|);
  }

  /**
    The pieces when the first match starts at `i` and ends at `e`: the text
    before it, then the pieces of the rest.
   */
  lemma FirstMatchSplit(s: string, d: Delimiter, i: nat, e: nat)
    requires i < |s| && NoMatchIn(d, s, 0, i) && MatchAt(d, s, i) == Some(e)
    ensures Split(s, d) == [s[..i]] + SplitFrom(s, d, e, e)
  {
    SkipNoMatch(s, d, 0, 0, i);
  }

  /** When the first match is also the only one, there are exactly two pieces, around it. */
  lemma SplitOnce(s: string, d: Delimiter, i: nat, e: nat)
    requires i < |s| && NoMatchIn(d, s, 0, i) && MatchAt(d, s, i) == Some(e) && NoMatchIn(d, s, e, |s|)
    ensures Split(s, d) == [s[..i], s[e..]]
  {
    FirstMatchSplit(s, d, i, e);
    SkipNoMatch(s, d, e, e, |s|);
  }
}

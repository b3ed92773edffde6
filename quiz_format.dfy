/**
  The question format the backend asks the AI for, read back by the quiz view:
  a block written as "Question: …", "A) …", "B) …", "C) …" and "Correct
  Answer: …", one per line, parses to exactly that question, its three options
  and the option the answer line names.
 */
module QuizFormat {
  import opened Wrappers
  import opened Text
  import opened JsSplit
  import opened MemorizationMode

  /**
    One question in the requested format, as the header split leaves it (the
    text after "Question:"), every line ended by a line break.
   */
  function FormatBlock(q: string, a: string, b: string, c: string, k: string): string {
    " " + q + "\nA) " + a + "\nB) " + b + "\nC) " + c + "\nCorrect Answer: " + k + "\n"
  }

  /** None of the four block delimiters matches at any index of `t` when a line break follows `t`. */
  predicate Unmarked(t: string) {
    forall x :: 0 <= x < |t| ==>
      && MatchAt(OptionMarker('A'), t + "\n", x).None?
      && MatchAt(OptionMarker('B'), t + "\n", x).None?
      && MatchAt(OptionMarker('C'), t + "\n", x).None?
      && MatchAt(CorrectAnswerMarker, t + "\n", x).None?
  }

  /**
    What fills one slot of the format: a non-empty line with nothing to trim, in
    which no delimiter matches even after a leading space.
   */
  predicate FormatPiece(p: string) {
    p != "" && Trimmed(p, JavaScript) && '\n' !in p && Unmarked(" " + p)
  }

  /** One of the four delimiters a block is cut at. */
  predicate BlockDelimiter(d: Delimiter) {
    d == OptionMarker('A') || d == OptionMarker('B') || d == OptionMarker('C') || d == CorrectAnswerMarker
  }

  // ------------------------------------------------------------- locality

  /** Two strings that agree on a window have the same whitespace runs inside it. */
  lemma {:induction false} SpaceEndAgree(s: string, o: nat, u: string, o2: nat, n: nat, x: nat, m: nat)
    requires o + n <= |s| && o2 + n <= |u| && s[o..o + n] == u[o2..o2 + n]
    requires x <= m < n && !IsJsSpace(s[o + m])
    ensures SpaceEnd(s, o + x) - o == SpaceEnd(u, o2 + x) - o2 <= m
    decreases m - x
  {
    assert s[o..o + n][x] == s[o + x] && u[o2..o2 + n][x] == u[o2 + x];
    if IsJsSpace(s[o + x]) {
      SpaceEndAgree(s, o, u, o2, n, x + 1, m);
    }
  }

  /** `s[o + j]` is the window's `j`-th character. */
  lemma WindowAt(s: string, o: nat, u: string, o2: nat, n: nat, j: nat)
    requires o + n <= |s| && o2 + n <= |u| && s[o..o + n] == u[o2..o2 + n] && j < n
    ensures s[o + j] == u[o2 + j]
  {
    assert s[o..o + n][j] == s[o + j] && u[o2..o2 + n][j] == u[o2 + j];
  }

  /** Two strings that agree on a window agree on every part of it. */
  lemma SubWindow(s: string, o: nat, u: string, o2: nat, n: nat, i: nat, j: nat)
    requires o + n <= |s| && o2 + n <= |u| && s[o..o + n] == u[o2..o2 + n] && i <= j <= n
    ensures s[o + i..o + j] == u[o2 + i..o2 + j]
  {
    var sw, uw := s[o + i..o + j], u[o2 + i..o2 + j];
    forall k | 0 <= k < |sw|
      ensures sw[k] == uw[k]
    {
      WindowAt(s, o, u, o2, n, i + k);
    }
  }

  /** A run of whitespace lasts longer than its first index exactly when that index holds whitespace. */
  lemma SpaceEndStep(s: string, i: nat)
    requires i <= |s|
    ensures SpaceEnd(s, i) > i <==> i < |s| && IsJsSpace(s[i])
  {
  }

  /** An option marker matches where the whitespace run ends in the letter, `)` or `.`, and whitespace. */
  lemma OptionMatchChars(letter: char, s: string, q: nat)
    requires q <= |s|
    ensures var w := SpaceEnd(s, q);
      OptionMatchAt(letter, s, q).Some? <==>
        w > q && w + 2 < |s| && s[w] == letter && (s[w + 1] == ')' || s[w + 1] == '.') && IsJsSpace(s[w + 2])
  {
    var w := SpaceEnd(s, q);
    if w + 2 <= |s| {
      SpaceEndStep(s, w + 2);
    }
  }

  /**
    Two option-marker attempts agree when their whitespace runs are equally
    long and the characters after them agree up to a line break.
   */
  lemma MarkCharsAgree(letter: char, s: string, q: nat, u: string, r: nat)
    requires q <= |s| && r <= |u|
    requires var ws, wu := SpaceEnd(s, q), SpaceEnd(u, r);
      && ws - q == wu - r
      && ws + 1 < |s| && wu + 1 < |u| && s[ws] == u[wu] && s[ws + 1] == u[wu + 1]
      && (s[ws + 1] == '\n' || (ws + 2 < |s| && wu + 2 < |u| && s[ws + 2] == u[wu + 2]))
    ensures OptionMatchAt(letter, s, q).None? <==> OptionMatchAt(letter, u, r).None?
  {
    OptionMatchChars(letter, s, q);
    OptionMatchChars(letter, u, r);
  }

  /** The option-marker case of `MatchAgree`. */
  lemma OptionAgree(letter: char, s: string, o: nat, u: string, o2: nat, n: nat, x: nat, m: nat)
    requires o + n <= |s| && o2 + n <= |u| && s[o..o + n] == u[o2..o2 + n]
    requires 0 < n && s[o + n - 1] == '\n'
    requires x <= m < n - 1 && !IsJsSpace(s[o + m])
    ensures OptionMatchAt(letter, s, o + x).None? <==> OptionMatchAt(letter, u, o2 + x).None?
  {
    SpaceEndAgree(s, o, u, o2, n, x, m);
    var w := SpaceEnd(s, o + x) - o;
    WindowAt(s, o, u, o2, n, w);
    WindowAt(s, o, u, o2, n, w + 1);
    if w + 1 < n - 1 {
      WindowAt(s, o, u, o2, n, w + 2);
    } else {
      WindowAt(s, o, u, o2, n, n - 1);
    }
    MarkCharsAgree(letter, s, o + x, u, o2 + x);
  }

  /** A literal cannot be found across a line break it does not hold. */
  lemma LiteralBlocked(s: string, i: nat, lit: string, j: nat)
    requires j < |lit| && i + j < |s| && s[i + j] == '\n' && lit[j] != '\n'
    ensures !LiteralAt(s, i, lit)
  {
    if i + |lit| <= |s| {
      assert Lower(s[i..i + |lit|])[j] == '\n';
    }
  }

  /** A literal is found in two strings alike where they agree. */
  lemma LiteralAgree(s: string, i: nat, u: string, j: nat, lit: string)
    requires i + |lit| <= |s| && j + |lit| <= |u| && s[i..i + |lit|] == u[j..j + |lit|]
    ensures LiteralAt(s, i, lit) <==> LiteralAt(u, j, lit)
  {
  }

  /**
    A whitespace run followed by a literal without line breaks is found in two
    strings alike when they agree up to a line break the run stops before.
   */
  lemma SpacedLiteralAgree(lit: string, s: string, o: nat, u: string, o2: nat, n: nat, x: nat, m: nat)
    requires '\n' !in lit
    requires o + n <= |s| && o2 + n <= |u| && s[o..o + n] == u[o2..o2 + n]
    requires 0 < n && s[o + n - 1] == '\n'
    requires x <= m < n - 1 && !IsJsSpace(s[o + m])
    ensures var ws, wu := SpaceEnd(s, o + x), SpaceEnd(u, o2 + x);
      ws > o + x && LiteralAt(s, ws, lit) <==> wu > o2 + x && LiteralAt(u, wu, lit)
  {
    SpaceEndAgree(s, o, u, o2, n, x, m);
    var ws, wu := SpaceEnd(s, o + x), SpaceEnd(u, o2 + x);
    var w := ws - o;
    assert wu == o2 + w;
    if w + |lit| <= n {
      SubWindow(s, o, u, o2, n, w, w + |lit|);
      LiteralAgree(s, ws, u, wu, lit);
    } else {
      WindowAt(s, o, u, o2, n, n - 1);
      LiteralBlocked(s, ws, lit, n - 1 - w);
      LiteralBlocked(u, wu, lit, n - 1 - w);
    }
  }

  /** The "Correct Answer:" case of `MatchAgree`. */
  lemma CorrectAgree(s: string, o: nat, u: string, o2: nat, n: nat, x: nat, m: nat)
    requires o + n <= |s| && o2 + n <= |u| && s[o..o + n] == u[o2..o2 + n]
    requires 0 < n && s[o + n - 1] == '\n'
    requires x <= m < n - 1 && !IsJsSpace(s[o + m])
    ensures AnswerMatchAt(s, o + x).None? <==> AnswerMatchAt(u, o2 + x).None?
  {
    var lit := "correct answer:";
    assert '\n' !in lit;
    SpacedLiteralAgree(lit, s, o, u, o2, n, x, m);
  }

  /**
    Whether a delimiter matches at an index depends only on the text up to the
    next line break, once the whitespace run from that index stops before it.
   */
  lemma MatchAgree(d: Delimiter, s: string, o: nat, u: string, o2: nat, n: nat, x: nat, m: nat)
    requires !d.QuestionHeader?
    requires o + n <= |s| && o2 + n <= |u| && s[o..o + n] == u[o2..o2 + n]
    requires 0 < n && s[o + n - 1] == '\n'
    requires x <= m < n - 1 && !IsJsSpace(s[o + m])
    ensures MatchAt(d, s, o + x).None? <==> MatchAt(d, u, o2 + x).None?
  {
    if d.OptionMarker? {
      OptionAgree(d.letter, s, o, u, o2, n, x, m);
    } else {
      CorrectAgree(s, o, u, o2, n, x, m);
    }
  }

  /** A piece preceded by a space and followed by a line break: no delimiter matches from the space to the piece's end. */
  lemma SpacedPieceNoMatch(d: Delimiter, s: string, o: nat, p: string)
    requires BlockDelimiter(d) && FormatPiece(p)
    requires o + |p| + 2 <= |s| && s[o..o + |p| + 2] == " " + p + "\n"
    ensures NoMatchIn(d, s, o, o + |p| + 1)
  {
    var u := " " + p + "\n";
    assert u == (" " + p) + "\n";
    forall x | o <= x < o + |p| + 1
      ensures MatchAt(d, s, x).None?
    {
      assert s[o..o + |p| + 2][|p|] == s[o + |p|];
      MatchAgree(d, s, o, u, 0, |p| + 2, x - o, |p|);
    }
  }

  /** A piece followed by a line break: no delimiter matches inside it. */
  lemma PieceNoMatch(d: Delimiter, s: string, o: nat, p: string)
    requires BlockDelimiter(d) && FormatPiece(p)
    requires o + |p| + 1 <= |s| && s[o..o + |p| + 1] == p + "\n"
    ensures NoMatchIn(d, s, o, o + |p|)
  {
    var u := " " + p + "\n";
    assert u == (" " + p) + "\n";
    assert u[1..|p| + 2] == p + "\n";
    forall x | o <= x < o + |p|
      ensures MatchAt(d, s, x).None?
    {
      assert s[o..o + |p| + 1][|p| - 1] == s[o + |p| - 1];
      MatchAgree(d, s, o, u, 1, |p| + 1, x - o, |p| - 1);
    }
  }

  // ------------------------------------------------------- the labels

  /** The mark a delimiter is written as in the format. */
  function Label(d: Delimiter): string {
    match d
    case OptionMarker(letter) => [letter, ')']
    case _ => "Correct Answer:"
  }

  /** `s[o + j]` is the `j`-th character of a slice `s[o..o + n]` known to equal `t`. */
  lemma SliceAt(s: string, o: nat, t: string, j: nat)
    requires o + |t| <= |s| && s[o..o + |t|] == t && j < |t|
    ensures s[o + j] == t[j]
  {
    assert s[o..o + |t|][j] == s[o + j];
  }

  /**
    An option marker does not match at a line break that starts another
    option's mark or the "Correct Answer:" mark, nor inside that mark.
   */
  lemma OtherLabelNoMatch(letter: char, mark: string, s: string, o: nat)
    requires letter in "ABC" && mark in ["B)", "C)", "Correct Answer:"] && mark != [letter, ')']
    requires o + |mark| + 2 < |s| && s[o..o + |mark| + 2] == "\n" + mark + " "
    ensures NoMatchIn(OptionMarker(letter), s, o, o + |mark| + 1)
  {
    var win := "\n" + mark + " ";
    forall x | o <= x < o + |mark| + 1
      ensures MatchAt(OptionMarker(letter), s, x).None?
    {
      SliceAt(s, o, win, x - o);
      if x == o {
        SliceAt(s, o, win, 1);
        SliceAt(s, o, win, 2);
        assert SpaceEnd(s, o) == o + 1;
      } else if mark == "Correct Answer:" && x == o + 8 {
        SliceAt(s, o, win, 9);
        SliceAt(s, o, win, 10);
        assert SpaceEnd(s, x) == x + 1;
      } else {
        assert !IsJsSpace(s[x]);
      }
    }
  }

  /** The "Correct Answer:" mark lower-cased is the literal the marker looks for. */
  lemma LowerAnswerMark()
    ensures Lower("Correct Answer:") == "correct answer:"
  {
    var m, l := "Correct Answer:", "correct answer:";
    forall i | 0 <= i < 15
      ensures Lower(m)[i] == l[i]
    {
    }
  }

  /** At a line break followed by an option's own mark and a space, its marker matches and ends after the space. */
  lemma OptionMarkMatch(letter: char, s: string, o: nat)
    requires letter in "ABC"
    requires o + 5 <= |s| && s[o..o + 4] == "\n" + [letter, ')'] + " " && !IsJsSpace(s[o + 4])
    ensures MatchAt(OptionMarker(letter), s, o) == Some(o + 4)
  {
    var win := "\n" + [letter, ')'] + " ";
    SliceAt(s, o, win, 0);
    SliceAt(s, o, win, 1);
    SliceAt(s, o, win, 2);
    SliceAt(s, o, win, 3);
    assert SpaceEnd(s, o) == o + 1;
    assert SpaceEnd(s, o + 3) == o + 4;
  }

  /** At a line break followed by "Correct Answer:" and a space, the answer marker matches and ends after the space. */
  lemma AnswerMarkMatch(s: string, o: nat)
    requires o + 18 <= |s| && s[o..o + 17] == "\nCorrect Answer: " && !IsJsSpace(s[o + 17])
    ensures MatchAt(CorrectAnswerMarker, s, o) == Some(o + 17)
  {
    var mark := "Correct Answer:";
    assert "\nCorrect Answer: " == "\n" + (mark + " ");
    SliceSplit(s, o, "\n", mark + " ");
    SliceSplit(s, o + 1, mark, " ");
    SliceAt(s, o, "\n", 0);
    SliceAt(s, o + 1, mark, 0);
    SliceAt(s, o + 16, " ", 0);
    assert SpaceEnd(s, o) == o + 1;
    assert SpaceEnd(s, o + 16) == o + 17;
    LowerAnswerMark();
  }

  /** Nothing matches at the line break that ends the text. */
  lemma FinalNoMatch(d: Delimiter, s: string)
    requires BlockDelimiter(d) && s != [] && s[|s| - 1] == '\n'
    ensures MatchAt(d, s, |s| - 1).None?
  {
    assert SpaceEnd(s, |s| - 1) == |s|;
  }

  // ------------------------------------------------------- the four splits

  /** What follows "A) ": option A and the rest of the block. */
  function RestA(a: string, b: string, c: string, k: string): string {
    a + "\nB) " + RestB(b, c, k)
  }

  /** What follows "B) ". */
  function RestB(b: string, c: string, k: string): string {
    b + "\nC) " + RestC(c, k)
  }

  /** What follows "C) ". */
  function RestC(c: string, k: string): string {
    c + "\nCorrect Answer: " + k + "\n"
  }

  /** `s[o..o + |t| + |v|]` split in two known parts. */
  lemma SliceSplit(s: string, o: nat, t: string, v: string)
    requires o + |t| + |v| <= |s| && s[o..o + |t| + |v|] == t + v
    ensures s[o..o + |t|] == t && s[o + |t|..o + |t| + |v|] == v
  {
    assert s[o..o + |t|] == s[o..o + |t| + |v|][..|t|];
    assert s[o + |t|..o + |t| + |v|] == s[o..o + |t| + |v|][|t|..];
  }

  /**
    Another option's mark or the answer mark, then a piece on its line: an
    option marker matches nowhere from the line break to the piece's end.
   */
  lemma SegmentNoMatch(letter: char, mark: string, p: string, s: string, o: nat)
    requires letter in "ABC" && mark in ["B)", "C)", "Correct Answer:"] && mark != [letter, ')']
    requires FormatPiece(p)
    requires o + |mark| + |p| + 3 <= |s| && s[o..o + |mark| + |p| + 3] == "\n" + mark + " " + p + "\n"
    ensures NoMatchIn(OptionMarker(letter), s, o, o + |mark| + |p| + 2)
  {
    assert "\n" + mark + " " + p + "\n" == ("\n" + mark) + (" " + p + "\n");
    SliceSplit(s, o, "\n" + mark, " " + p + "\n");
    assert "\n" + mark + " " + p + "\n" == ("\n" + mark + " ") + (p + "\n");
    SliceSplit(s, o, "\n" + mark + " ", p + "\n");
    OtherLabelNoMatch(letter, mark, s, o);
    SpacedPieceNoMatch(OptionMarker(letter), s, o + |mark| + 1, p);
  }

  /** In the answer split, the answer marker does not match inside option C. */
  lemma AnswerSplitHead(c: string, k: string)
    requires FormatPiece(c)
    ensures NoMatchIn(CorrectAnswerMarker, RestC(c, k), 0, |c|)
  {
    var s := RestC(c, k);
    assert s == (c + "\n") + ("Correct Answer: " + k + "\n");
    SliceSplit(s, 0, c + "\n", "Correct Answer: " + k + "\n");
    PieceNoMatch(CorrectAnswerMarker, s, 0, c);
  }

  /** In the answer split, the answer marker matches at the line break after option C. */
  lemma AnswerSplitMark(c: string, k: string)
    requires FormatPiece(k)
    ensures MatchAt(CorrectAnswerMarker, RestC(c, k), |c|) == Some(|c| + 17)
  {
    var s := RestC(c, k);
    assert s == c + "\nCorrect Answer: " + (k + "\n");
    SliceSplit(s, |c|, "\nCorrect Answer: ", k + "\n");
    SliceAt(s, |c| + 17, k + "\n", 0);
    AnswerMarkMatch(s, |c|);
  }

  /** In the answer split, the answer marker matches nowhere in the answer line. */
  lemma AnswerSplitTail(c: string, k: string)
    requires FormatPiece(k)
    ensures NoMatchIn(CorrectAnswerMarker, RestC(c, k), |c| + 17, |RestC(c, k)|)
  {
    var s := RestC(c, k);
    assert s == c + "\nCorrect Answer: " + (k + "\n");
    SliceSplit(s, |c|, "\nCorrect Answer: ", k + "\n");
    PieceNoMatch(CorrectAnswerMarker, s, |c| + 17, k);
    FinalNoMatch(CorrectAnswerMarker, s);
  }

  /** The answer split: option C, then the answer line with its line break. */
  lemma SplitAnswer(c: string, k: string)
    requires FormatPiece(c) && FormatPiece(k)
    ensures Split(RestC(c, k), CorrectAnswerMarker) == [c, k + "\n"]
  {
    var s := RestC(c, k);
    AnswerSplitHead(c, k);
    AnswerSplitMark(c, k);
    AnswerSplitTail(c, k);
    SplitOnce(s, CorrectAnswerMarker, |c|, |c| + 17);
    assert s == c + "\nCorrect Answer: " + (k + "\n");
    assert s[..|c|] == c && s[|c| + 17..] == k + "\n";
  }

  /** `s[o..]` split in two known parts. */
  lemma SuffixSplit(s: string, o: nat, t: string, v: string)
    requires o <= |s| && s[o..] == t + v
    ensures o + |t| <= |s| && s[o..o + |t|] == t && s[o + |t|..] == v
  {
    assert s[o..o + |t|] == s[o..][..|t|];
    assert s[o + |t|..] == s[o..][|t|..];
  }

  /** The lines after a piece: each further mark with its piece, then the final line break. */
  function Lines(marks: seq<string>, pieces: seq<string>): (t: string)
    requires |marks| == |pieces|
    ensures t != [] && t[0] == '\n'
  {
    if marks == [] then "\n" else "\n" + marks[0] + " " + pieces[0] + Lines(marks[1..], pieces[1..])
  }

  /** `s[o..o + |t|]` is `t` and the next character is `c`. */
  lemma SliceExtend(s: string, o: nat, t: string, c: char)
    requires o + |t| < |s| && s[o..o + |t|] == t && s[o + |t|] == c
    ensures s[o..o + |t| + 1] == t + [c]
  {
    assert s[o..o + |t| + 1] == s[o..o + |t|] + [s[o + |t|]];
  }

  /** No match in two adjacent ranges is no match in their union. */
  lemma NoMatchJoin(d: Delimiter, s: string, lo: nat, mid: nat, hi: nat)
    requires lo <= mid <= hi <= |s| && NoMatchIn(d, s, lo, mid) && NoMatchIn(d, s, mid, hi)
    ensures NoMatchIn(d, s, lo, hi)
  {
  }

  /** The marks that may follow an option's piece when `letter`'s marker is tried. */
  predicate OtherMarks(letter: char, marks: seq<string>, pieces: seq<string>)
    requires |marks| == |pieces|
  {
    forall i :: 0 <= i < |marks| ==>
      marks[i] in ["B)", "C)", "Correct Answer:"] && marks[i] != [letter, ')'] && FormatPiece(pieces[i])
  }

  /** An option marker matches nowhere in lines that hold only other marks. */
  lemma {:induction false} LinesNoMatch(letter: char, marks: seq<string>, pieces: seq<string>, s: string, o: nat)
    requires letter in "ABC" && |marks| == |pieces| && OtherMarks(letter, marks, pieces)
    requires o <= |s| && s[o..] == Lines(marks, pieces)
    ensures NoMatchIn(OptionMarker(letter), s, o, |s|)
    decreases |marks|
  {
    if marks == [] {
      assert |s| == o + 1 && s[o] == s[o..][0];
      FinalNoMatch(OptionMarker(letter), s);
    } else {
      var m, p := marks[0], pieces[0];
      var seg, rest := "\n" + m + " " + p, Lines(marks[1..], pieces[1..]);
      SuffixSplit(s, o, seg, rest);
      assert s[o + |seg|] == s[o + |seg|..][0];
      SliceExtend(s, o, seg, '\n');
      SegmentNoMatch(letter, m, p, s, o);
      assert OtherMarks(letter, marks[1..], pieces[1..]) by {
        forall i | 0 <= i < |marks| - 1
          ensures marks[1..][i] == marks[i + 1] && pieces[1..][i] == pieces[i + 1]
        {
        }
      }
      LinesNoMatch(letter, marks[1..], pieces[1..], s, o + |seg|);
      NoMatchJoin(OptionMarker(letter), s, o, o + |seg|, |s|);
    }
  }

  /** An option marker matches nowhere in a piece followed by lines that hold only other marks. */
  lemma PieceLinesNoMatch(letter: char, p: string, marks: seq<string>, pieces: seq<string>, s: string, o: nat)
    requires letter in "ABC" && FormatPiece(p) && |marks| == |pieces| && OtherMarks(letter, marks, pieces)
    requires o <= |s| && s[o..] == p + Lines(marks, pieces)
    ensures NoMatchIn(OptionMarker(letter), s, o, |s|)
  {
    var rest := Lines(marks, pieces);
    SuffixSplit(s, o, p, rest);
    assert s[o + |p|] == s[o + |p|..][0];
    SliceExtend(s, o, p, '\n');
    PieceNoMatch(OptionMarker(letter), s, o, p);
    LinesNoMatch(letter, marks, pieces, s, o + |p|);
    NoMatchJoin(OptionMarker(letter), s, o, o + |p|, |s|);
  }

  /** What follows "C) ", as a piece and its lines. */
  lemma RestCLines(c: string, k: string)
    ensures RestC(c, k) == c + Lines(["Correct Answer:"], [k])
  {
    assert Lines(["Correct Answer:"], [k]) == "\n" + "Correct Answer:" + " " + k + "\n";
  }

  /** What follows "B) ", as a piece and its lines. */
  lemma RestBLines(b: string, c: string, k: string)
    ensures RestB(b, c, k) == b + Lines(["C)", "Correct Answer:"], [c, k])
  {
    RestCLines(c, k);
    assert ["C)", "Correct Answer:"][1..] == ["Correct Answer:"];
    assert [c, k][1..] == [k];
  }

  /** What follows "A) ", as a piece and its lines. */
  lemma RestALines(a: string, b: string, c: string, k: string)
    ensures RestA(a, b, c, k) == a + Lines(["B)", "C)", "Correct Answer:"], [b, c, k])
  {
    RestBLines(b, c, k);
    assert ["B)", "C)", "Correct Answer:"][1..] == ["C)", "Correct Answer:"];
    assert [b, c, k][1..] == [c, k];
  }

  /** An option marker matches nowhere in what follows "C) ". */
  lemma RestCNoMatch(letter: char, c: string, k: string, s: string, o: nat)
    requires letter in "ABC" && FormatPiece(c) && FormatPiece(k)
    requires o <= |s| && s[o..] == RestC(c, k)
    ensures NoMatchIn(OptionMarker(letter), s, o, |s|)
  {
    RestCLines(c, k);
    PieceLinesNoMatch(letter, c, ["Correct Answer:"], [k], s, o);
  }

  /** The B and A markers match nowhere in what follows "B) ". */
  lemma RestBNoMatch(letter: char, b: string, c: string, k: string, s: string, o: nat)
    requires letter in "AB" && FormatPiece(b) && FormatPiece(c) && FormatPiece(k)
    requires o <= |s| && s[o..] == RestB(b, c, k)
    ensures NoMatchIn(OptionMarker(letter), s, o, |s|)
  {
    RestBLines(b, c, k);
    PieceLinesNoMatch(letter, b, ["C)", "Correct Answer:"], [c, k], s, o);
  }

  /** The A marker matches nowhere in what follows "A) ". */
  lemma RestANoMatch(a: string, b: string, c: string, k: string, s: string, o: nat)
    requires FormatPiece(a) && FormatPiece(b) && FormatPiece(c) && FormatPiece(k)
    requires o <= |s| && s[o..] == RestA(a, b, c, k)
    ensures NoMatchIn(OptionMarker('A'), s, o, |s|)
  {
    RestALines(a, b, c, k);
    PieceLinesNoMatch('A', a, ["B)", "C)", "Correct Answer:"], [b, c, k], s, o);
  }

  /** An option split with a single match, at the line break that starts the option's own mark. */
  lemma OptionSplit(letter: char, head: string, rest: string, s: string)
    requires letter in "ABC" && s == head + ("\n" + [letter, ')'] + " ") + rest
    requires rest != [] && !IsJsSpace(rest[0])
    requires NoMatchIn(OptionMarker(letter), s, 0, |head|)
    requires NoMatchIn(OptionMarker(letter), s, |head| + 4, |s|)
    ensures Split(s, OptionMarker(letter)) == [head, rest]
  {
    SuffixSplit(s, 0, head, ("\n" + [letter, ')'] + " ") + rest);
    SuffixSplit(s, |head|, "\n" + [letter, ')'] + " ", rest);
    SliceAt(s, |head| + 4, rest, 0);
    OptionMarkMatch(letter, s, |head|);
    SplitOnce(s, OptionMarker(letter), |head|, |head| + 4);
    assert s[..|head|] == head;
  }

  /** The C split: option B, then what follows "C) ". */
  lemma SplitOptionC(b: string, c: string, k: string)
    requires FormatPiece(b) && FormatPiece(c) && FormatPiece(k)
    ensures Split(RestB(b, c, k), OptionMarker('C')) == [b, RestC(c, k)]
  {
    var s := RestB(b, c, k);
    assert s == b + ("\n" + ['C', ')'] + " ") + RestC(c, k);
    assert s == (b + "\n") + ("C) " + RestC(c, k));
    SuffixSplit(s, 0, b + "\n", "C) " + RestC(c, k));
    PieceNoMatch(OptionMarker('C'), s, 0, b);
    assert s == (b + "\nC) ") + RestC(c, k);
    SuffixSplit(s, 0, b + "\nC) ", RestC(c, k));
    RestCNoMatch('C', c, k, s, |b| + 4);
    OptionSplit('C', b, RestC(c, k), s);
  }

  /** The B split: option A, then what follows "B) ". */
  lemma SplitOptionB(a: string, b: string, c: string, k: string)
    requires FormatPiece(a) && FormatPiece(b) && FormatPiece(c) && FormatPiece(k)
    ensures Split(RestA(a, b, c, k), OptionMarker('B')) == [a, RestB(b, c, k)]
  {
    var s := RestA(a, b, c, k);
    assert s == a + ("\n" + ['B', ')'] + " ") + RestB(b, c, k);
    assert s == (a + "\n") + ("B) " + RestB(b, c, k));
    SuffixSplit(s, 0, a + "\n", "B) " + RestB(b, c, k));
    PieceNoMatch(OptionMarker('B'), s, 0, a);
    assert s == (a + "\nB) ") + RestB(b, c, k);
    SuffixSplit(s, 0, a + "\nB) ", RestB(b, c, k));
    RestBNoMatch('B', b, c, k, s, |a| + 4);
    OptionSplit('B', a, RestB(b, c, k), s);
  }

  /** A split at the A marker of a question followed by whatever else the block holds. */
  lemma QuestionSplit(q: string, rest: string, s: string)
    requires FormatPiece(q) && s == " " + q + "\nA) " + rest
    requires rest != [] && !IsJsSpace(rest[0])
    requires NoMatchIn(OptionMarker('A'), s, |q| + 5, |s|)
    ensures Split(s, OptionMarker('A')) == [" " + q, rest]
  {
    var head := " " + q;
    assert s == head + ("\n" + ['A', ')'] + " ") + rest;
    assert s == (" " + q + "\n") + ("A) " + rest);
    SuffixSplit(s, 0, " " + q + "\n", "A) " + rest);
    SpacedPieceNoMatch(OptionMarker('A'), s, 0, q);
    OptionSplit('A', head, rest, s);
  }

  /** The A split: the question after its leading space, then what follows "A) ". */
  lemma SplitOptionA(q: string, a: string, b: string, c: string, k: string)
    requires FormatPiece(q) && FormatPiece(a) && FormatPiece(b) && FormatPiece(c) && FormatPiece(k)
    ensures Split(FormatBlock(q, a, b, c, k), OptionMarker('A')) == [" " + q, RestA(a, b, c, k)]
  {
    var s := FormatBlock(q, a, b, c, k);
    var rest := RestA(a, b, c, k);
    assert s == (" " + q + "\nA) ") + rest;
    SuffixSplit(s, 0, " " + q + "\nA) ", rest);
    RestANoMatch(a, b, c, k, s, |q| + 5);
    QuestionSplit(q, rest, s);
  }

  // ------------------------------------------------------- the round trip

  /** Trimming gives a trimmed line back whether a space precedes it or a line break follows it. */
  lemma TrimAround(p: string)
    requires p != [] && Trimmed(p, JavaScript)
    ensures JsTrim(" " + p) == p && JsTrim(p) == p && JsTrim(p + "\n") == p
  {
    assert (" " + p)[1..] == p;
    assert TrimStart(" " + p, JavaScript) == p;
    TrimOfTrimmed(p, JavaScript);
    assert TrimStart(p + "\n", JavaScript) == p + "\n";
    assert (p + "\n")[..|p|] == p;
    assert TrimEnd(p + "\n", JavaScript) == TrimEnd(p, JavaScript);
  }

  /** The first line of a text without line breaks is the whole text. */
  lemma FirstLineOfLine(k: string)
    requires '\n' !in k
    ensures FirstLine(k) == k
  {
    ContainsChar(k, '\n');
    SplitWithoutSep(k, "\n");
  }

  /** The four successive splits cut a block in the format back into its five pieces. */
  lemma CutFormatBlock(q: string, a: string, b: string, c: string, k: string)
    requires FormatPiece(q) && FormatPiece(a) && FormatPiece(b) && FormatPiece(c) && FormatPiece(k)
    ensures CutBlock(FormatBlock(q, a, b, c, k)) == BlockParts(q, a, b, c, k)
  {
    SplitOptionA(q, a, b, c, k);
    SplitOptionB(a, b, c, k);
    SplitOptionC(b, c, k);
    SplitAnswer(c, k);
    TrimAround(q);
    TrimAround(a);
    TrimAround(b);
    TrimAround(c);
    TrimAround(k);
    FirstLineOfLine(k);
  }

  /**
    A block in the format the AI is asked for reads back as its question, its
    three options in order, and the option its answer line names.
   */
  lemma FormatRoundTrip(q: string, a: string, b: string, c: string, k: string)
    requires FormatPiece(q) && FormatPiece(a) && FormatPiece(b) && FormatPiece(c) && FormatPiece(k)
    ensures ParseBlock(FormatBlock(q, a, b, c, k)) == Some(Question(q, [a, b, c], CorrectOption(k, a, b, c)))
  {
    CutFormatBlock(q, a, b, c, k);
  }

  /**
    An answer line that repeats an option word for word selects it: C always,
    B when it does not also name C, and A when it names neither B nor C.
   */
  lemma RoundTripSelects(q: string, a: string, b: string, c: string, k: string)
    requires FormatPiece(q) && FormatPiece(a) && FormatPiece(b) && FormatPiece(c) && FormatPiece(k)
    ensures k == c ==> ParseBlock(FormatBlock(q, a, b, c, k)) == Some(Question(q, [a, b, c], c))
    ensures k == b && !Names(k, 'c', c) ==> ParseBlock(FormatBlock(q, a, b, c, k)) == Some(Question(q, [a, b, c], b))
    ensures k == a && !Names(k, 'c', c) && !Names(k, 'b', b) ==>
      ParseBlock(FormatBlock(q, a, b, c, k)) == Some(Question(q, [a, b, c], a))
  {
    FormatRoundTrip(q, a, b, c, k);
    assert k <= k;
  }

  /** An ordinary word fills a slot of the format. */
  lemma WordIsPiece()
    ensures FormatPiece("Paris")
  {
    var t := " Paris" + "\n";
    assert SpaceEnd(t, 0) == 1;
    forall x | 0 <= x < 6
      ensures MatchAt(OptionMarker('A'), t, x).None? && MatchAt(OptionMarker('B'), t, x).None?
      ensures MatchAt(OptionMarker('C'), t, x).None? && MatchAt(CorrectAnswerMarker, t, x).None?
    {
      if x > 0 {
        assert SpaceEnd(t, x) == x;
      }
    }
  }
}

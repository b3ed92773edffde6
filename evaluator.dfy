/**
  The game evaluator: it reads the answer key out of the AI's game text
  (fill-in-the-blank, true/false and rapid-fire answers after an `ANSWERS:`
  marker) and scores a player's answers against it.
 */
module Evaluator {
  import opened Wrappers
  import opened Text

  /** The `answers` dictionary: three fill-in answers, two true/false answers and one rapid answer. */
  datatype Answers = Answers(fill: seq<string>, tf: seq<string>, rapid: Option<string>)

  /** What `parse_game_answers` starts from and returns when nothing is found. */
  const NoAnswers: Answers := Answers([], [], None)

  const Marker: string := "ANSWERS:"

  // --------------------------------------------------- Python regex pieces

  /** End of the run the regex `(.*)` takes greedily from `i`: `.` matches anything but a newline. */
  function LineEnd(s: string, i: nat): (j: nat)
    requires i <= |s|
    ensures i <= j <= |s|
    ensures forall k :: i <= k < j ==> s[k] != '\n'
    ensures j == |s| || s[j] == '\n'
    decreases |s| - i
  {
    if i == |s| || s[i] == '\n' then i else LineEnd(s, i + 1)
  }

  /** End of the run the regex `\s*` takes greedily from `i`. */
  function SpaceEnd(s: string, i: nat): (j: nat)
    requires i <= |s|
    ensures i <= j <= |s|
    ensures forall k :: i <= k < j ==> IsPySpace(s[k])
    ensures j == |s| || !IsPySpace(s[j])
    decreases |s| - i
  {
    if i < |s| && IsPySpace(s[i]) then SpaceEnd(s, i + 1) else i
  }

  /** A matched group: the slice `s[start..end]`. */
  datatype Span = Span(start: nat, end: nat)

  predicate SpansIn(s: string, spans: seq<Span>) {
    forall k :: 0 <= k < |spans| ==> spans[k].start <= spans[k].end <= |s|
  }

  /**
    Matches `\s*K1(.*)\s*K2(.*)…\s*Kn(.*)` at `i` for the keys `K1 … Kn`, with
    Python's backtracking: `\s*` can only end right before the key (a key starts
    with a digit), each `(.*)` but the last tries its longest run first and gives
    back one character at a time, and the last one takes the rest of its line.
   */
  function MatchGroups(s: string, i: nat, keys: seq<string>): (r: Option<seq<Span>>)
    requires i <= |s| && keys != []
    ensures r.Some? ==> |r.value| == |keys| && SpansIn(s, r.value)
    decreases |keys|, 1, 0
  {
    var j := SpaceEnd(s, i);
    if !(keys[0] <= s[j..]) then None
    else
      var g := j + |keys[0]|;
      if |keys| == 1 then Some([Span(g, LineEnd(s, g))])
      else TryGroupEnds(s, g, LineEnd(s, g), keys[1..])
  }

  /** Backtracking over the end `e` of one `(.*)` group that starts at `g`: `e`, then `e - 1`, down to `g`. */
  function TryGroupEnds(s: string, g: nat, e: nat, rest: seq<string>): (r: Option<seq<Span>>)
    requires g <= e <= |s| && rest != []
    ensures r.Some? ==> |r.value| == |rest| + 1 && SpansIn(s, r.value)
    decreases |rest| + 1, 0, e
  {
    match MatchGroups(s, e, rest)
    case Some(spans) => Some([Span(g, e)] + spans)
    case None => if e == g then None else TryGroupEnds(s, g, e - 1, rest)
  }

  /** Whether `prefix` followed by the groups pattern matches at position `q`. */
  predicate MatchesAt(s: string, q: nat, prefix: string, keys: seq<string>)
    requires keys != []
  {
    q + |prefix| <= |s| && s[q..q + |prefix|] == prefix && MatchGroups(s, q + |prefix|, keys).Some?
  }

  /**
    The first match of `re.findall(prefix + groups, s)`: the groups at the
    leftmost start at or after `p` where the pattern matches, and nothing
    exactly when it matches nowhere there.
   */
  function FirstMatch(s: string, p: nat, prefix: string, keys: seq<string>): (r: Option<seq<Span>>)
    requires p <= |s| && keys != []
    ensures r.Some? ==> |r.value| == |keys| && SpansIn(s, r.value)
    ensures r.None? <==> forall q :: p <= q <= |s| ==> !MatchesAt(s, q, prefix, keys)
    decreases |s| - p
  {
    if MatchesAt(s, p, prefix, keys) then MatchGroups(s, p + |prefix|, keys)
    else if p == |s| then None
    else FirstMatch(s, p + 1, prefix, keys)
  }

  /** Starts where the pattern does not match are skipped: the search goes on from the next one. */
  lemma {:induction false} SkipNonMatches(s: string, p: nat, q: nat, prefix: string, keys: seq<string>)
    requires p <= q <= |s| && keys != []
    requires forall q' :: p <= q' < q ==> !MatchesAt(s, q', prefix, keys)
    ensures FirstMatch(s, p, prefix, keys) == FirstMatch(s, q, prefix, keys)
    decreases q - p
  {
    if p < q {
      assert !MatchesAt(s, p, prefix, keys);
      SkipNonMatches(s, p + 1, q, prefix, keys);
    }
  }

  /** When `q` is the leftmost start of a match, the first match is the one at `q`. */
  lemma FirstMatchLeftmost(s: string, p: nat, q: nat, prefix: string, keys: seq<string>)
    requires p <= q <= |s| && keys != []
    requires MatchesAt(s, q, prefix, keys)
    requires forall q' :: p <= q' < q ==> !MatchesAt(s, q', prefix, keys)
    ensures FirstMatch(s, p, prefix, keys) == MatchGroups(s, q + |prefix|, keys)
  {
    SkipNonMatches(s, p, q, prefix, keys);
  }

  /** `[a.strip() for a in findall(...)[0]]`, or nothing when there is no match. */
  function StrippedGroups(s: string, prefix: string, keys: seq<string>): (r: seq<string>)
    requires keys != []
    ensures r == [] || |r| == |keys|
    ensures r == [] <==> forall q :: 0 <= q <= |s| ==> !MatchesAt(s, q, prefix, keys)
    ensures forall k :: 0 <= k < |r| ==> Trimmed(r[k], Python)
  {
    match FirstMatch(s, 0, prefix, keys)
    case None => []
    case Some(spans) =>
      seq(|spans|, k requires 0 <= k < |spans| => PyStrip(s[spans[k].start..spans[k].end]))
  }

  // ------------------------------------------ answer lines in the expected layout

  /** Lines `K1v1`, `K2v2`, … `Knvn`, each key followed by its value, joined by line breaks. */
  function Layout(keys: seq<string>, vals: seq<string>): string
    requires |keys| == |vals| > 0
    decreases |keys|
  {
    if |keys| == 1 then keys[0] + vals[0]
    else keys[0] + vals[0] + "\n" + Layout(keys[1..], vals[1..])
  }

  /** Keys that start with something other than white space, and values that stay on one line. */
  predicate WellLaidOut(keys: seq<string>, vals: seq<string>) {
    && |keys| == |vals| > 0
    && (forall k :: 0 <= k < |keys| ==> keys[k] != [] && !IsPySpace(keys[k][0]))
    && (forall k :: 0 <= k < |vals| ==> '\n' !in vals[k])
  }

  /** A text that holds `t` at `j` holds each part of `t` at the matching place. */
  lemma Window(s: string, j: nat, t: string, a: nat, b: nat)
    requires j + |t| <= |s| && s[j..j + |t|] == t && a <= b <= |t|
    ensures s[j + a..j + b] == t[a..b]
  {
    var sw, tw := s[j + a..j + b], t[a..b];
    forall k | 0 <= k < |sw|
      ensures sw[k] == tw[k]
    {
      assert sw[k] == s[j..j + |t|][a + k];
    }
  }

  /** The white-space run from `i` ends at `j` when everything before `j` is white space and `j` is not. */
  lemma SpaceEndAt(s: string, i: nat, j: nat)
    requires i <= j <= |s|
    requires forall k :: i <= k < j ==> IsPySpace(s[k])
    requires j == |s| || !IsPySpace(s[j])
    ensures SpaceEnd(s, i) == j
  {
  }

  /** The `(.*)` run from `i` ends at `j` when no line break comes before `j` and one (or the end) is at `j`. */
  lemma LineEndAt(s: string, i: nat, j: nat)
    requires i <= j <= |s|
    requires forall k :: i <= k < j ==> s[k] != '\n'
    requires j == |s| || s[j] == '\n'
    ensures LineEnd(s, i) == j
  {
  }

  /** Each span captures the value in the same place. */
  predicate Captures(s: string, spans: seq<Span>, vals: seq<string>) {
    && |spans| == |vals| && SpansIn(s, spans)
    && forall k :: 0 <= k < |spans| ==> s[spans[k].start..spans[k].end] == vals[k]
  }

  /** A span capturing the first value, followed by spans capturing the others, captures them all. */
  lemma CapturesCons(s: string, first: Span, spans: seq<Span>, vals: seq<string>)
    requires |vals| > 0 && first.start <= first.end <= |s| && s[first.start..first.end] == vals[0]
    requires Captures(s, spans, vals[1..])
    ensures Captures(s, [first] + spans, vals)
  {
    var all := [first] + spans;
    forall k | 0 <= k < |all|
      ensures s[all[k].start..all[k].end] == vals[k]
    {
      if k > 0 {
        assert all[k] == spans[k - 1] && vals[k] == vals[1..][k - 1];
      }
    }
  }

  /** A text that holds `t == a + b` at `j` holds `a` at `j` and `b` right after it. */
  lemma SplitWindow(s: string, j: nat, t: string, a: string, b: string)
    requires t == a + b && j + |t| <= |s| && s[j..j + |t|] == t
    ensures s[j..j + |a|] == a && s[j + |a|..j + |t|] == b
  {
    assert t[..|a|] == a && t[|a|..] == b;
    Window(s, j, t, 0, |a|);
    Window(s, j, t, |a|, |t|);
  }

  /**
    One answer line `key + val` at `j`, after white space from `i` and followed
    by `tail`, which is empty at the end of the text or before a line break, or
    else starts with a line break: the white space ends at the key, the group
    after the key (from `g`) ends with the value (at `e`), and `tail` follows.
   */
  lemma AnswerLine(s: string, i: nat, j: nat, g: nat, e: nat, t: string, key: string, val: string, tail: string)
    requires t == key + val + tail && g == j + |key| && e == g + |val|
    requires i <= j && j + |t| <= |s|
    requires forall k :: i <= k < j ==> IsPySpace(s[k])
    requires s[j..j + |t|] == t
    requires key != [] && !IsPySpace(key[0]) && '\n' !in val
    requires tail == [] ==> j + |t| == |s| || s[j + |t|] == '\n'
    requires tail != [] ==> tail[0] == '\n'
    ensures SpaceEnd(s, i) == j && key <= s[j..]
    ensures e <= |s| && LineEnd(s, g) == e && s[g..e] == val
    ensures s[e..j + |t|] == tail
  {
    var kv := key + val;
    SplitWindow(s, j, t, kv, tail);
    SplitWindow(s, j, kv, key, val);
    assert s[j] == s[j..g][0];
    SpaceEndAt(s, i, j);
    assert s[j..][..|key|] == s[j..g];
    forall k | g <= k < e
      ensures s[k] != '\n'
    {
      assert s[k] == s[g..e][k - g];
    }
    if tail != [] {
      assert s[e] == s[e..j + |t|][0];
    }
    LineEndAt(s, g, e);
  }

  /** How the groups pattern starts: white space up to the key, then the first group up to the line's end. */
  lemma MatchGroupsFirst(s: string, i: nat, j: nat, g: nat, e: nat, keys: seq<string>)
    requires i <= j <= |s| && keys != []
    requires SpaceEnd(s, i) == j && keys[0] <= s[j..]
    requires g == j + |keys[0]| && g <= |s| && LineEnd(s, g) == e
    ensures |keys| == 1 ==> MatchGroups(s, i, keys) == Some([Span(g, e)])
    ensures |keys| > 1 && MatchGroups(s, e, keys[1..]).Some? ==>
      MatchGroups(s, i, keys) == Some([Span(g, e)] + MatchGroups(s, e, keys[1..]).value)
  {
  }

  /** The first line of a layout: where its key and its value sit. */
  lemma LayoutFirstLine(s: string, i: nat, j: nat, g: nat, e: nat, keys: seq<string>, vals: seq<string>)
    requires WellLaidOut(keys, vals) && g == j + |keys[0]| && e == g + |vals[0]|
    requires i <= j && j + |Layout(keys, vals)| <= |s|
    requires forall k :: i <= k < j ==> IsPySpace(s[k])
    requires s[j..j + |Layout(keys, vals)|] == Layout(keys, vals)
    requires j + |Layout(keys, vals)| == |s| || s[j + |Layout(keys, vals)|] == '\n'
    ensures SpaceEnd(s, i) == j && keys[0] <= s[j..] && e <= |s| && LineEnd(s, g) == e && s[g..e] == vals[0]
  {
    var t := Layout(keys, vals);
    var tail := if |keys| == 1 then "" else "\n" + Layout(keys[1..], vals[1..]);
    assert t == keys[0] + vals[0] + tail;
    assert keys[0] != [] && !IsPySpace(keys[0][0]) && '\n' !in vals[0];
    AnswerLine(s, i, j, g, e, t, keys[0], vals[0], tail);
  }

  /** After the first line of a layout with more lines come a line break and the rest of the layout. */
  lemma LayoutNextLines(s: string, j: nat, e: nat, keys: seq<string>, vals: seq<string>)
    requires |keys| == |vals| > 1 && e == j + |keys[0]| + |vals[0]|
    requires j + |Layout(keys, vals)| <= |s| && s[j..j + |Layout(keys, vals)|] == Layout(keys, vals)
    ensures e + 1 + |Layout(keys[1..], vals[1..])| == j + |Layout(keys, vals)|
    ensures s[e] == '\n' && s[e + 1..j + |Layout(keys, vals)|] == Layout(keys[1..], vals[1..])
  {
    var t := Layout(keys, vals);
    var t' := Layout(keys[1..], vals[1..]);
    var tail := "\n" + t';
    var kv := keys[0] + vals[0];
    assert t == kv + tail;
    SplitWindow(s, j, t, kv, tail);
    SplitWindow(s, e, tail, "\n", t');
    assert s[e] == s[e..e + 1][0];
  }

  /**
    Answer lines in the expected layout at `j`, after white space from `i` and
    followed by the end of the text or a line break.
   */
  predicate LaidOutAt(s: string, i: nat, j: nat, keys: seq<string>, vals: seq<string>) {
    && WellLaidOut(keys, vals)
    && i <= j && j + |Layout(keys, vals)| <= |s|
    && (forall k :: i <= k < j ==> IsPySpace(s[k]))
    && s[j..j + |Layout(keys, vals)|] == Layout(keys, vals)
    && (j + |Layout(keys, vals)| == |s| || s[j + |Layout(keys, vals)|] == '\n')
  }

  /** The first answer line of a layout, and the rest of the layout laid out after it. */
  lemma LaidOutFirst(s: string, i: nat, j: nat, g: nat, e: nat, keys: seq<string>, vals: seq<string>)
    requires LaidOutAt(s, i, j, keys, vals) && g == j + |keys[0]| && e == g + |vals[0]|
    ensures SpaceEnd(s, i) == j && keys[0] <= s[j..] && e <= |s| && LineEnd(s, g) == e && s[g..e] == vals[0]
    ensures |keys| > 1 ==> LaidOutAt(s, e, e + 1, keys[1..], vals[1..])
  {
    LayoutFirstLine(s, i, j, g, e, keys, vals);
    if |keys| > 1 {
      LayoutNextLines(s, j, e, keys, vals);
      WellLaidOutTail(keys, vals);
    }
  }

  /**
    Answer lines in the expected layout, after white space and followed by the
    end of the text or a line break, match the groups pattern with each group
    capturing its line's value.
   */
  lemma {:induction false} LayoutGroups(s: string, i: nat, j: nat, keys: seq<string>, vals: seq<string>)
    requires LaidOutAt(s, i, j, keys, vals)
    ensures MatchGroups(s, i, keys).Some? && Captures(s, MatchGroups(s, i, keys).value, vals)
    decreases |keys|
  {
    var g := j + |keys[0]|;
    var e := g + |vals[0]|;
    LaidOutFirst(s, i, j, g, e, keys, vals);
    MatchGroupsFirst(s, i, j, g, e, keys);
    if |keys| == 1 {
      CapturesCons(s, Span(g, e), [], vals);
    } else {
      LayoutGroups(s, e, e + 1, keys[1..], vals[1..]);
      CapturesCons(s, Span(g, e), MatchGroups(s, e, keys[1..]).value, vals);
    }
  }

  /** Dropping the first line of a well-laid-out list leaves a well-laid-out list. */
  lemma WellLaidOutTail(keys: seq<string>, vals: seq<string>)
    requires WellLaidOut(keys, vals) && |keys| > 1
    ensures WellLaidOut(keys[1..], vals[1..])
  {
    forall k | 0 <= k < |keys| - 1
      ensures keys[1..][k] == keys[k + 1] && vals[1..][k] == vals[k + 1]
    {
    }
  }

  /**
    Answer lines in the expected layout at the start of the text, after the
    prefix and one white-space character, give back their values, stripped.
   */
  lemma LaidOutAnswers(s: string, prefix: string, keys: seq<string>, vals: seq<string>)
    requires |prefix| < |s| && s[..|prefix|] == prefix
    requires LaidOutAt(s, |prefix|, |prefix| + 1, keys, vals)
    ensures var r := StrippedGroups(s, prefix, keys);
      |r| == |vals| && forall k :: 0 <= k < |r| ==> r[k] == PyStrip(vals[k])
  {
    var n := |prefix|;
    LayoutGroups(s, n, n + 1, keys, vals);
    assert s[0..n] == prefix;
    assert MatchesAt(s, 0, prefix, keys);
    assert FirstMatch(s, 0, prefix, keys) == MatchGroups(s, n, keys);
  }

  /** A layout written after a prefix and a space, and before the end of the text or a line break, is laid out there. */
  lemma LaidOutAfter(prefix: string, keys: seq<string>, vals: seq<string>, rest: string)
    requires WellLaidOut(keys, vals)
    requires rest == [] || rest[0] == '\n'
    ensures var s := prefix + " " + Layout(keys, vals) + rest;
      |prefix| < |s| && s[..|prefix|] == prefix && LaidOutAt(s, |prefix|, |prefix| + 1, keys, vals)
  {
    var t := Layout(keys, vals);
    var s := prefix + " " + t + rest;
    var n := |prefix|;
    assert s[..n] == prefix;
    assert s[n] == ' ';
    assert s[n + 1..n + 1 + |t|] == t;
    if rest != [] {
      assert s[n + 1 + |t|] == rest[0];
    }
  }

  /** Answer lines laid out after a prefix and a space give back their values, stripped. */
  lemma StrippedLaidOut(prefix: string, keys: seq<string>, vals: seq<string>, rest: string)
    requires WellLaidOut(keys, vals)
    requires rest == [] || rest[0] == '\n'
    ensures var r := StrippedGroups(prefix + " " + Layout(keys, vals) + rest, prefix, keys);
      |r| == |vals| && forall k :: 0 <= k < |r| ==> r[k] == PyStrip(vals[k])
  {
    LaidOutAfter(prefix, keys, vals, rest);
    LaidOutAnswers(prefix + " " + Layout(keys, vals) + rest, prefix, keys, vals);
  }

  /**
    Three answer lines `k1 x`, `k2 y`, `k3 z` after a prefix and a space: the
    search for the prefix and the three keys gives back `x`, `y` and `z`, stripped.
   */
  lemma ThreeLines(prefix: string, k1: string, k2: string, k3: string, head: string, sep2: string, sep3: string,
                   x: string, y: string, z: string, rest: string)
    requires head == prefix + " " + k1 && sep2 == "\n" + k2 && sep3 == "\n" + k3
    requires WellLaidOut([k1, k2, k3], [x, y, z])
    requires rest == [] || rest[0] == '\n'
    ensures StrippedGroups(head + x + sep2 + y + sep3 + z + rest, prefix, [k1, k2, k3])
      == [PyStrip(x), PyStrip(y), PyStrip(z)]
  {
    var keys, vals := [k1, k2, k3], [x, y, z];
    LayoutThree(k1, k2, k3, x, y, z);
    StrippedLaidOut(prefix, keys, vals, rest);
    Regroup(prefix + " ", k1, x, "\n" + k2, y, "\n" + k3, z, rest);
    var r := StrippedGroups(head + x + sep2 + y + sep3 + z + rest, prefix, keys);
    assert r[0] == PyStrip(vals[0]) && r[1] == PyStrip(vals[1]) && r[2] == PyStrip(vals[2]);
    ThreeItems(r, PyStrip(x), PyStrip(y), PyStrip(z));
  }

  /** The fill-in line as the game prompt lays it out gives back its three answers, stripped. */
  lemma FillLine(x: string, y: string, z: string, rest: string)
    requires '\n' !in x && '\n' !in y && '\n' !in z
    requires rest == [] || rest[0] == '\n'
    ensures ParseSection("FILL: 1=" + x + "\n2=" + y + "\n3=" + z + rest).fill
      == [PyStrip(x), PyStrip(y), PyStrip(z)]
  {
    ThreeLines("FILL:", "1=", "2=", "3=", "FILL: 1=", "\n2=", "\n3=", x, y, z, rest);
  }

  /** Three answer lines as a layout. */
  lemma LayoutThree(k1: string, k2: string, k3: string, x: string, y: string, z: string)
    ensures Layout([k1, k2, k3], [x, y, z]) == k1 + x + ("\n" + k2) + y + ("\n" + k3) + z
  {
    assert [k1, k2, k3][1..] == [k2, k3] && [x, y, z][1..] == [y, z];
    assert [k2, k3][1..] == [k3] && [y, z][1..] == [z];
    assert Layout([k3], [z]) == k3 + z;
    assert Layout([k2, k3], [y, z]) == k2 + y + "\n" + (k3 + z);
    assert Layout([k1, k2, k3], [x, y, z]) == k1 + x + "\n" + (k2 + y + "\n" + (k3 + z));
  }

  /** Three answer lines written out in one go are the prefix, the layout and the rest. */
  lemma Regroup(p: string, k1: string, x: string, s2: string, y: string, s3: string, z: string, rest: string)
    ensures p + k1 + x + s2 + y + s3 + z + rest == p + (k1 + x + s2 + y + s3 + z) + rest
  {
  }

  /** A list of three items is the list of those items in order. */
  lemma ThreeItems<T>(r: seq<T>, a: T, b: T, c: T)
    requires |r| == 3 && r[0] == a && r[1] == b && r[2] == c
    ensures r == [a, b, c]
  {
  }

  /** Index of the leftmost occurrence of `sub` in `s` at or after `p`. */
  function FindFrom(s: string, sub: string, p: nat): (r: Option<nat>)
    requires p <= |s|
    ensures r.Some? ==> p <= r.value && OccursAt(s, sub, r.value)
    ensures r.None? ==> forall i :: p <= i <= |s| ==> !OccursAt(s, sub, i)
    decreases |s| - p
  {
    if OccursAt(s, sub, p) then Some(p)
    else if p == |s| then None
    else FindFrom(s, sub, p + 1)
  }

  /** `re.search(r"RAPID=(.*)", section)`: the rest of the line after the first "RAPID=", stripped. */
  function Rapid(section: string): (r: Option<string>)
    ensures r.Some? ==> Trimmed(r.value, Python)
  {
    match FindFrom(section, "RAPID=", 0)
    case None => None
    case Some(i) => Some(PyStrip(section[i + 6..LineEnd(section, i + 6)]))
  }

  /** The three searches `parse_game_answers` runs on the answer section. */
  function ParseSection(section: string): (a: Answers)
    ensures |a.fill| == 0 || |a.fill| == 3
    ensures |a.tf| == 0 || |a.tf| == 2
  {
    Answers(
      StrippedGroups(section, "FILL:", ["1=", "2=", "3="]),
      StrippedGroups(section, "TF:", ["1=", "2="]),
      Rapid(section))
  }

  /** `parse_game_answers`: only the text after the last `ANSWERS:` is examined. */
  function ParseGameAnswers(text: string): (a: Answers)
    ensures !Contains(text, Marker) ==> a == NoAnswers
    ensures |a.fill| == 0 || |a.fill| == 3
    ensures |a.tf| == 0 || |a.tf| == 2
    ensures forall k :: 0 <= k < |a.fill| ==> Trimmed(a.fill[k], Python)
    ensures forall k :: 0 <= k < |a.tf| ==> Trimmed(a.tf[k], Python)
    ensures a.rapid.Some? ==> Trimmed(a.rapid.value, Python)
  {
    if !Contains(text, Marker) then NoAnswers
    else ParseSection(AfterLast(text, Marker))
  }

  /** Two occurrences of `ANSWERS:` can never overlap. */
  lemma MarkerNonOverlapping()
    ensures NonOverlapping(Marker)
  {
    forall k | 0 < k < |Marker|
      ensures !(Marker[k..] <= Marker)
    {
      assert Marker[k..][0] != Marker[0];
    }
  }

  /** Whatever comes before the last `ANSWERS:` marker has no say in the parsed answers. */
  lemma OnlyLastSection(before: string, section: string)
    requires !Contains(section, Marker)
    ensures ParseGameAnswers(before + Marker + section) == ParseSection(section)
  {
    var text := before + Marker + section;
    MarkerNonOverlapping();
    AfterLastOccurrence(before, Marker, section);
    ContainsAt(text, Marker);
    assert OccursAt(text, Marker, |before|);
  }

  /** `rapid` is given exactly when "RAPID=" occurs in the answer section. */
  lemma RapidPresence(section: string)
    ensures Rapid(section).Some? <==> Contains(section, "RAPID=")
  {
    ContainsAt(section, "RAPID=");
    if Contains(section, "RAPID=") {
      var i :| OccursAt(section, "RAPID=", i);
      assert FindFrom(section, "RAPID=", 0).Some?;
    }
  }

  // ---------------------------------------------------------------- scoring

  /** The raised error: an answer list that is too short, or a missing rapid answer. */
  datatype ScoreError = MissingAnswer

  /** Both answer sets have everything `score_game` reads. */
  predicate Scorable(a: Answers) {
    |a.fill| >= 3 && |a.tf| >= 2 && a.rapid.Some?
  }

  /** Whether two answers agree once lower-cased. */
  predicate SameAnswer(x: string, y: string) {
    Lower(x) == Lower(y)
  }

  /** How many of the first `n` positions of `a` and `b` hold the same answer. */
  function Agreements(a: seq<string>, b: seq<string>, n: nat): (c: nat)
    requires n <= |a| && n <= |b|
    ensures c <= n
  {
    if n == 0 then 0 else Agreements(a, b, n - 1) + (if SameAnswer(a[n - 1], b[n - 1]) then 1 else 0)
  }

  /** The score: one point per agreeing fill-in, true/false and rapid answer. */
  function Score(correct: Answers, user: Answers): (score: nat)
    requires Scorable(correct) && Scorable(user)
    ensures score <= 6
  {
    Agreements(user.fill, correct.fill, 3) + Agreements(user.tf, correct.tf, 2)
      + (if SameAnswer(user.rapid.value, correct.rapid.value) then 1 else 0)
  }

  /** Answers all agree with themselves. */
  lemma {:induction false} SelfAgreement(a: seq<string>, n: nat)
    requires n <= |a|
    ensures Agreements(a, a, n) == n
  {
    if n > 0 {
      SelfAgreement(a, n - 1);
    }
  }

  /** Agreement does not care which side is the key. */
  lemma {:induction false} AgreementsSymmetric(a: seq<string>, b: seq<string>, n: nat)
    requires n <= |a| && n <= |b|
    ensures Agreements(a, b, n) == Agreements(b, a, n)
  {
    if n > 0 {
      AgreementsSymmetric(a, b, n - 1);
    }
  }

  /** A well-formed answer set scored against itself gets full marks, however it is capitalised. */
  lemma PerfectScore(a: Answers)
    requires Scorable(a)
    ensures Score(a, a) == 6
  {
    SelfAgreement(a.fill, 3);
    SelfAgreement(a.tf, 2);
  }

  /** Swapping the key and the player's answers leaves the score unchanged. */
  lemma ScoreSymmetric(a: Answers, b: Answers)
    requires Scorable(a) && Scorable(b)
    ensures Score(a, b) == Score(b, a)
  {
    AgreementsSymmetric(a.fill, b.fill, 3);
    AgreementsSymmetric(a.tf, b.tf, 2);
  }

  /**
    `score_game`: counts agreeing answers in two loops and a final test; it fails
    as soon as it reads a missing list entry or a missing rapid answer.
   */
  method ScoreGame(correct: Answers, user: Answers) returns (r: Result<(int, int), ScoreError>)
    ensures r.Failure? <==> !(Scorable(correct) && Scorable(user))
    ensures r.Success? ==> r.value == (Score(correct, user), 6)
    ensures r.Success? ==> 0 <= r.value.0 <= r.value.1 == 6
  {
    var score := 0;
    var total := 6;
    for i := 0 to 3
      invariant i <= |user.fill| && i <= |correct.fill|
      invariant score == Agreements(user.fill, correct.fill, i)
    {
      if i >= |user.fill| || i >= |correct.fill| {
        return Failure(MissingAnswer);
      }
      if Lower(user.fill[i]) == Lower(correct.fill[i]) {
        score := score + 1;
      }
    }
    ghost var fillScore := score;
    for i := 0 to 2
      invariant i <= |user.tf| && i <= |correct.tf|
      invariant score == fillScore + Agreements(user.tf, correct.tf, i)
    {
      if i >= |user.tf| || i >= |correct.tf| {
        return Failure(MissingAnswer);
      }
      if Lower(user.tf[i]) == Lower(correct.tf[i]) {
        score := score + 1;
      }
    }
    if user.rapid.None? || correct.rapid.None? {
      return Failure(MissingAnswer);
    }
    if Lower(user.rapid.value) == Lower(correct.rapid.value) {
      score := score + 1;
    }
    r := Success((score, total));
  }
}

/**
  String primitives of Python and JavaScript that the slide pipeline and the
  quiz views rely on, written out over `seq<char>`: whitespace, trimming,
  ASCII lower-casing, substring tests, `str.split(sep)` and decimal rendering.
 */
module Text {

  // ---------------------------------------------------------------- whitespace

  /** Python's `str.isspace()` (the characters `str.strip()` and the regex `\s` remove or match). */
  predicate IsPySpace(c: char) {
    || c == ' ' || '\t' <= c <= '\r' || '\U{1C}' <= c <= '\U{1F}'
    || c == '\U{85}' || c == '\U{A0}' || c == '\U{1680}'
    || '\U{2000}' <= c <= '\U{200A}' || c == '\U{2028}' || c == '\U{2029}'
    || c == '\U{202F}' || c == '\U{205F}' || c == '\U{3000}'
  }

  /** ECMAScript WhiteSpace and LineTerminator (what `String.prototype.trim` removes and regex `\s` matches). */
  predicate IsJsSpace(c: char) {
    || '\t' <= c <= '\r' || c == ' ' || c == '\U{A0}' || c == '\U{1680}'
    || '\U{2000}' <= c <= '\U{200A}' || c == '\U{2028}' || c == '\U{2029}'
    || c == '\U{202F}' || c == '\U{205F}' || c == '\U{3000}' || c == '\U{FEFF}'
  }

  /** Which language's notion of whitespace a trim or a regex `\s` uses. */
  datatype Flavor = Python | JavaScript

  predicate IsSpace(flavor: Flavor, c: char) {
    match flavor
    case Python => IsPySpace(c)
    case JavaScript => IsJsSpace(c)
  }

  // ------------------------------------------------------------------ trimming

  /** Drops the longest prefix whose characters all are whitespace. */
  function TrimStart(s: string, ws: Flavor): (r: string)
    ensures |r| <= |s| && r == s[|s| - |r|..]
    ensures forall i :: 0 <= i < |s| - |r| ==> IsSpace(ws, s[i])
    ensures r != [] ==> !IsSpace(ws, r[0])
  {
    if |s| > 0 && IsSpace(ws, s[0]) then TrimStart(s[1..], ws) else s
  }

  /** Drops the longest suffix whose characters all are whitespace. */
  function TrimEnd(s: string, ws: Flavor): (r: string)
    ensures |r| <= |s| && r == s[..|r|]
    ensures forall i :: |r| <= i < |s| ==> IsSpace(ws, s[i])
    ensures r != [] ==> !IsSpace(ws, r[|r| - 1])
  {
    if |s| > 0 && IsSpace(ws, s[|s| - 1]) then TrimEnd(s[..|s| - 1], ws) else s
  }

  /** A string with nothing left to trim at either end. */
  predicate Trimmed(s: string, ws: Flavor) {
    s == [] || (!IsSpace(ws, s[0]) && !IsSpace(ws, s[|s| - 1]))
  }

  /** Both ends trimmed. */
  function Trim(s: string, ws: Flavor): (r: string)
    ensures Trimmed(r, ws)
    ensures |r| <= |s|
  {
    var t := TrimStart(s, ws);
    var r := TrimEnd(t, ws);
    assert r != [] ==> r[0] == t[0];
    r
  }

  /** Trimming a trimmed string changes nothing. */
  lemma TrimOfTrimmed(s: string, ws: Flavor)
    requires Trimmed(s, ws)
    ensures Trim(s, ws) == s
  {
  }

  /** Python `s.strip()`. */
  function PyStrip(s: string): string {
    Trim(s, Python)
  }

  /** JavaScript `s.trim()`. */
  function JsTrim(s: string): string {
    Trim(s, JavaScript)
  }

  /** Python `s.lstrip(chars)`: drops the longest prefix made only of characters in `chars`. */
  function LStripChars(s: string, chars: set<char>): (r: string)
    ensures |r| <= |s| && r == s[|s| - |r|..]
    ensures forall i :: 0 <= i < |s| - |r| ==> s[i] in chars
    ensures r != [] ==> r[0] !in chars
  {
    if |s| > 0 && s[0] in chars then LStripChars(s[1..], chars) else s
  }

  // ------------------------------------------------------------- lower-casing

  /** ASCII lower-casing of one character. */
  function LowerChar(c: char): char {
    if 'A' <= c <= 'Z' then (c as int + 32) as char else c
  }

  /** Lower-casing, character by character (Python `str.lower`, JavaScript `toLowerCase`, ASCII letters only). */
  function Lower(s: string): (r: string)
    ensures |r| == |s|
  {
    seq(|s|, i requires 0 <= i < |s| => LowerChar(s[i]))
  }

  /** Only `'\n'` lower-cases to `'\n'`, so a newline test gives the same answer before and after lower-casing. */
  lemma NewlineInLower(s: string)
    ensures '\n' in Lower(s) <==> '\n' in s
  {
    if '\n' in Lower(s) {
      var i :| 0 <= i < |s| && Lower(s)[i] == '\n';
      assert s[i] == '\n';
    }
    if '\n' in s {
      var i :| 0 <= i < |s| && s[i] == '\n';
      assert Lower(s)[i] == '\n';
    }
  }

  // ------------------------------------------------------------ substring tests

  /** Python `sub in s`, JavaScript `s.includes(sub)`. */
  predicate Contains(s: string, sub: string) {
    sub <= s || (|s| > 0 && Contains(s[1..], sub))
  }

  /** `sub` occurs in `s` starting at index `i`. */
  predicate OccursAt(s: string, sub: string, i: int) {
    0 <= i <= |s| - |sub| && s[i..i + |sub|] == sub
  }

  /** `Contains` is the usual "occurs at some position" test. */
  lemma {:induction false} ContainsAt(s: string, sub: string)
    ensures Contains(s, sub) <==> exists i :: OccursAt(s, sub, i)
  {
    if sub <= s {
      assert OccursAt(s, sub, 0);
    } else if |s| > 0 {
      ContainsAt(s[1..], sub);
      if Contains(s[1..], sub) {
        var i :| OccursAt(s[1..], sub, i);
        assert OccursAt(s, sub, i + 1);
      }
      if exists i :: OccursAt(s, sub, i) {
        var i :| OccursAt(s, sub, i);
        assert i != 0;
        assert OccursAt(s[1..], sub, i - 1);
      }
    }
  }

  /** A text that lacks the first character of `sub` does not contain `sub`. */
  lemma MissingFirstChar(s: string, sub: string)
    requires sub != [] && sub[0] !in s
    ensures !Contains(s, sub)
  {
    ContainsAt(s, sub);
  }

  /** For a one-character `sub`, `Contains` is plain membership. */
  lemma {:induction false} ContainsChar(s: string, c: char)
    ensures Contains(s, [c]) <==> c in s
  {
    if |s| > 0 {
      ContainsChar(s[1..], c);
      assert s == [s[0]] + s[1..];
    }
  }

  /** Python `s.startswith(prefix)`. */
  predicate StartsWith(s: string, prefix: string) {
    prefix <= s
  }

  // --------------------------------------------------------- Python str.split

  /**
    Python `s.split(sep)` for a non-empty `sep`: the leftmost occurrence is cut out
    first and the scan resumes after it, so occurrences never overlap.
   */
  function SplitStr(s: string, sep: string): (r: seq<string>)
    requires |sep| > 0
    ensures |r| >= 1 && r[0] <= s
    ensures forall i :: 0 <= i < |r| ==> !Contains(r[i], sep)
    decreases |s|
  {
    if |s| == 0 then [""]
    else if sep <= s then [""] + SplitStr(s[|sep|..], sep)
    else
      var rest := SplitStr(s[1..], sep);
      assert !Contains([s[0]] + rest[0], sep) by {
        assert ([s[0]] + rest[0])[1..] == rest[0];
      }
      [[s[0]] + rest[0]] + rest[1..]
  }

  /** Python `sep.join(parts)`. */
  function JoinStr(parts: seq<string>, sep: string): string {
    if |parts| == 0 then ""
    else if |parts| == 1 then parts[0]
    else parts[0] + sep + JoinStr(parts[1..], sep)
  }

  /** Joining the pieces of a split with the same separator gives back the original string. */
  lemma {:induction false} JoinSplit(s: string, sep: string)
    requires |sep| > 0
    ensures JoinStr(SplitStr(s, sep), sep) == s
    decreases |s|
  {
    if |s| == 0 {
    } else if sep <= s {
      JoinSplit(s[|sep|..], sep);
      assert s == sep + s[|sep|..];
    } else {
      var rest := SplitStr(s[1..], sep);
      JoinSplit(s[1..], sep);
      assert SplitStr(s, sep) == [[s[0]] + rest[0]] + rest[1..];
      if |rest| == 1 {
        assert rest[0] == s[1..];
      } else {
        assert JoinStr(rest, sep) == rest[0] + sep + JoinStr(rest[1..], sep);
        assert SplitStr(s, sep)[1..] == rest[1..];
      }
      assert s == [s[0]] + s[1..];
    }
  }

  /** A string without the separator splits into itself alone. */
  lemma {:induction false} SplitWithoutSep(s: string, sep: string)
    requires |sep| > 0 && !Contains(s, sep)
    ensures SplitStr(s, sep) == [s]
    decreases |s|
  {
    if |s| > 0 {
      SplitWithoutSep(s[1..], sep);
      assert [s[0]] + s[1..] == s;
    }
  }

  /** Splitting at a single-character separator distributes over a join at that separator. */
  lemma {:induction false} SplitAtOne(a: string, b: string, sep: string)
    requires |sep| == 1
    ensures SplitStr(a + sep + b, sep) == SplitStr(a, sep) + SplitStr(b, sep)
    decreases |a|
  {
    var s := a + sep + b;
    if |a| == 0 {
      assert s == sep + b && s[|sep|..] == b;
    } else if sep <= a {
      assert sep <= s;
      assert s[|sep|..] == a[|sep|..] + sep + b;
      SplitAtOne(a[|sep|..], b, sep);
    } else {
      assert !(sep <= s);
      assert s[1..] == a[1..] + sep + b;
      SplitAtOne(a[1..], b, sep);
    }
  }

  /**
    A separator none of whose proper suffixes is one of its own prefixes, such as
    "ANSWERS:": two of its occurrences can never overlap.
   */
  predicate NonOverlapping(sep: string) {
    forall k :: 0 < k < |sep| ==> !(sep[k..] <= sep)
  }

  /** The text after the last occurrence (Python `s.split(sep)[-1]`). */
  function AfterLast(s: string, sep: string): (r: string)
    requires |sep| > 0
    ensures !Contains(r, sep)
  {
    var parts := SplitStr(s, sep);
    parts[|parts| - 1]
  }

  /** With a non-overlapping separator, everything before its last occurrence is irrelevant to `AfterLast`. */
  lemma {:induction false} AfterLastOccurrence(p: string, sep: string, q: string)
    requires |sep| > 0 && NonOverlapping(sep) && !Contains(q, sep)
    ensures AfterLast(p + sep + q, sep) == q
    decreases |p|
  {
    var s := p + sep + q;
    if |p| == 0 {
      assert sep <= s && s[|sep|..] == q;
      SplitWithoutSep(q, sep);
    } else if sep <= s {
      if |p| < |sep| {
        NoEarlyOccurrence(p, sep, q);
      }
      assert s[|sep|..] == p[|sep|..] + sep + q;
      AfterLastOccurrence(p[|sep|..], sep, q);
    } else {
      assert s[1..] == p[1..] + sep + q;
      AfterLastOccurrence(p[1..], sep, q);
      ContainsAt(s[1..], sep);
      assert OccursAt(s[1..], sep, |p| - 1);
      SplitHasMany(s[1..], sep);
    }
  }

  /** A non-overlapping separator cannot also start inside the text just before one of its occurrences. */
  lemma NoEarlyOccurrence(p: string, sep: string, q: string)
    requires NonOverlapping(sep) && 0 < |p| < |sep|
    ensures !(sep <= p + sep + q)
  {
    var s := p + sep + q;
    assert s[|p|..|sep|] == sep[..|sep| - |p|];
    assert !(sep[|p|..] <= sep);
  }

  /** A string that holds the separator splits into at least two pieces. */
  lemma SplitHasMany(t: string, sep: string)
    requires |sep| > 0 && Contains(t, sep)
    ensures |SplitStr(t, sep)| >= 2
  {
    JoinSplit(t, sep);
  }

  // ----------------------------------------------------------------- decimals

  /** A decimal digit. */
  function Digit(d: nat): (c: char)
    requires d < 10
    ensures '0' <= c <= '9'
  {
    ('0' as int + d) as char
  }

  /** The decimal rendering of a natural number, as JavaScript's template literals render it. */
  function Decimal(n: nat): (r: string)
    ensures |r| >= 1
    ensures forall i :: 0 <= i < |r| ==> '0' <= r[i] <= '9'
    ensures r[|r| - 1] == Digit(n % 10)
  {
    if n < 10 then [Digit(n)] else Decimal(n / 10) + [Digit(n % 10)]
  }

  /** Reading a string of decimal digits back as a number. */
  function DecimalValue(s: string): nat
    requires forall i :: 0 <= i < |s| ==> '0' <= s[i] <= '9'
  {
    if |s| == 0 then 0 else 10 * DecimalValue(s[..|s| - 1]) + (s[|s| - 1] as int - '0' as int)
  }

  /** `Decimal` loses nothing: reading the rendering back gives the number. */
  lemma {:induction false} DecimalRoundTrip(n: nat)
    ensures DecimalValue(Decimal(n)) == n
  {
    if n >= 10 {
      DecimalRoundTrip(n / 10);
      var r := Decimal(n);
      assert r[..|r| - 1] == Decimal(n / 10);
    }
  }

  /** Distinct numbers have distinct renderings. */
  lemma DecimalInjective(m: nat, n: nat)
    requires m != n
    ensures Decimal(m) != Decimal(n)
  {
    DecimalRoundTrip(m);
    DecimalRoundTrip(n);
  }
}

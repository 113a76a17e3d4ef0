/**
 * The handful of Python `str` operations the bots and the manager apply to
 * command output and configuration lines: `strip`, `lstrip(chars)`,
 * `rstrip(chars)`, `startswith`, `in`, `lower`, `split(sep)`,
 * `split(sep, 1)`, `join` and `splitlines`.
 */
module Text {

  /** The characters for which Python's `str.isspace()` holds. */
  predicate IsSpace(c: char) {
    '\t' <= c <= '\r' || '\U{1C}' <= c <= ' ' || c == '\U{85}' || c == '\U{A0}' || c == '\U{1680}' ||
    '\U{2000}' <= c <= '\U{200A}' || c == '\U{2028}' || c == '\U{2029}' || c == '\U{202F}' ||
    c == '\U{205F}' || c == '\U{3000}'
  }

  /** The line boundaries of Python's `str.splitlines()` ("\r\n" counts as one). */
  const LineBreaks: set<char> :=
    {'\n', '\r', '\U{B}', '\U{C}', '\U{1C}', '\U{1D}', '\U{1E}', '\U{85}', '\U{2028}', '\U{2029}'}

  /** The number of leading characters of `s` that are in `cs`. */
  function LeadIn(s: string, cs: set<char>): (n: nat)
    ensures n <= |s|
    decreases |s|
  {
    if s != [] && s[0] in cs then 1 + LeadIn(s[1..], cs) else 0
  }

  /** The number of trailing characters of `s` that are in `cs`. */
  function TrailIn(s: string, cs: set<char>): (n: nat)
    ensures n <= |s|
    decreases |s|
  {
    if s != [] && s[|s| - 1] in cs then 1 + TrailIn(s[..|s| - 1], cs) else 0
  }

  /** `LeadIn` counts characters in `cs` and stops at the first one outside it. */
  lemma {:induction false} LeadInSpec(s: string, cs: set<char>)
    ensures forall i :: 0 <= i < LeadIn(s, cs) ==> s[i] in cs
    ensures LeadIn(s, cs) < |s| ==> s[LeadIn(s, cs)] !in cs
    decreases |s|
  {
    if s != [] && s[0] in cs {
      LeadInSpec(s[1..], cs);
      assert forall i :: 1 <= i < |s| ==> s[i] == s[1..][i - 1];
    }
  }

  /** `TrailIn` counts characters in `cs` from the end and stops at the first one outside it. */
  lemma {:induction false} TrailInSpec(s: string, cs: set<char>)
    ensures forall i :: |s| - TrailIn(s, cs) <= i < |s| ==> s[i] in cs
    ensures TrailIn(s, cs) < |s| ==> s[|s| - 1 - TrailIn(s, cs)] !in cs
    decreases |s|
  {
    if s != [] && s[|s| - 1] in cs {
      TrailInSpec(s[..|s| - 1], cs);
    }
  }

  /** `s.lstrip(cs)`: drops the longest prefix made of characters in `cs`. */
  function TrimLeft(s: string, cs: set<char>): string {
    s[LeadIn(s, cs)..]
  }

  /** `s.rstrip(cs)`: drops the longest suffix made of characters in `cs`. */
  function TrimRight(s: string, cs: set<char>): string {
    s[..|s| - TrailIn(s, cs)]
  }

  /** The number of leading whitespace characters of `s`. */
  function LeadSpaces(s: string): (n: nat)
    ensures n <= |s|
    decreases |s|
  {
    if s != [] && IsSpace(s[0]) then 1 + LeadSpaces(s[1..]) else 0
  }

  /** The number of trailing whitespace characters of `s`. */
  function TrailSpaces(s: string): (n: nat)
    ensures n <= |s|
    decreases |s|
  {
    if s != [] && IsSpace(s[|s| - 1]) then 1 + TrailSpaces(s[..|s| - 1]) else 0
  }

  lemma {:induction false} LeadSpacesSpec(s: string)
    ensures forall i :: 0 <= i < LeadSpaces(s) ==> IsSpace(s[i])
    ensures LeadSpaces(s) < |s| ==> !IsSpace(s[LeadSpaces(s)])
    decreases |s|
  {
    if s != [] && IsSpace(s[0]) {
      LeadSpacesSpec(s[1..]);
      assert forall i :: 1 <= i < |s| ==> s[i] == s[1..][i - 1];
    }
  }

  lemma {:induction false} TrailSpacesSpec(s: string)
    ensures forall i :: |s| - TrailSpaces(s) <= i < |s| ==> IsSpace(s[i])
    ensures TrailSpaces(s) < |s| ==> !IsSpace(s[|s| - 1 - TrailSpaces(s)])
    decreases |s|
  {
    if s != [] && IsSpace(s[|s| - 1]) {
      TrailSpacesSpec(s[..|s| - 1]);
    }
  }

  /** `s.lstrip()` */
  function StripLeft(s: string): string {
    s[LeadSpaces(s)..]
  }

  /** `s.strip()`: whitespace removed at both ends. */
  function Strip(s: string): string {
    var t := s[..|s| - TrailSpaces(s)];
    StripLeft(t)
  }

  /** `s.strip()` is empty exactly for a blank `s`, and otherwise begins and ends with non-whitespace. */
  lemma StripBlank(s: string)
    ensures Strip(s) == [] <==> forall i :: 0 <= i < |s| ==> IsSpace(s[i])
    ensures Strip(s) != [] ==> !IsSpace(Strip(s)[0]) && !IsSpace(Strip(s)[|Strip(s)| - 1])
  {
    var b := TrailSpaces(s);
    var t := s[..|s| - b];
    var a := LeadSpaces(t);
    TrailSpacesSpec(s);
    LeadSpacesSpec(t);
    assert Strip(s) == t[a..];
    if a < |t| {
      assert t[a..][0] == t[a];
      assert t[a..][|t| - a - 1] == s[|s| - 1 - b];
    }
  }

  /** `s.startswith(p)` */
  predicate StartsWith(s: string, p: string) {
    |p| <= |s| && s[..|p|] == p
  }

  /** `s.endswith(p)` */
  predicate EndsWith(s: string, p: string) {
    |p| <= |s| && s[|s| - |p|..] == p
  }

  /** `sub in s` */
  predicate Contains(s: string, sub: string)
    decreases |s|
  {
    StartsWith(s, sub) || (s != [] && Contains(s[1..], sub))
  }

  /** `c.lower()` for the ASCII letters; every other character is left as is. */
  function LowerChar(c: char): char {
    if 'A' <= c <= 'Z' then (c as int + 32) as char else c
  }

  /** `s.lower()`, letter by letter. */
  function Lower(s: string): (r: string)
    ensures |r| == |s|
  {
    seq(|s|, i requires 0 <= i < |s| => LowerChar(s[i]))
  }

  /** `s[k:]`, which Python allows past the end. */
  function Drop(s: string, k: nat): string {
    if k <= |s| then s[k..] else []
  }

  /** The index of the first character of `s` in `cs`, or `|s|` when there is none. */
  function Find(s: string, cs: set<char>): (i: nat)
    ensures i <= |s|
    ensures i < |s| ==> s[i] in cs
  {
    if s == [] || s[0] in cs then 0 else 1 + Find(s[1..], cs)
  }

  /** `c in s` exactly when a search for `c` stops inside `s`. */
  lemma FindIn(s: string, c: char)
    ensures Find(s, {c}) < |s| <==> c in s
  {
    FindIsFirst(s, {c});
  }

  /** No character before `Find(s, cs)` is in `cs`. */
  lemma {:induction false} FindIsFirst(s: string, cs: set<char>)
    ensures forall k :: 0 <= k < Find(s, cs) ==> s[k] !in cs
    decreases |s|
  {
    if s != [] && s[0] !in cs {
      FindIsFirst(s[1..], cs);
    }
  }

  /** `s.split(sep)` for a one-character separator. */
  function Split(s: string, sep: char): (parts: seq<string>)
    ensures |parts| >= 1
    ensures Find(s, {sep}) < |s| ==> |parts| >= 2
    decreases |s|
  {
    var i := Find(s, {sep});
    if i == |s| then [s] else [s[..i]] + Split(s[i + 1..], sep)
  }

  /** `sep.join(parts)` */
  function Join(parts: seq<string>, sep: char): string {
    if |parts| == 0 then ""
    else if |parts| == 1 then parts[0]
    else parts[0] + [sep] + Join(parts[1..], sep)
  }

  /** The part before the first `sep` and the part after it: `s.split(sep, 1)`. */
  function Before(s: string, sep: char): string {
    s[..Find(s, {sep})]
  }

  function After(s: string, sep: char): string
    requires sep in s
  {
    FindIn(s, sep);
    s[Find(s, {sep}) + 1..]
  }

  /** `s.split(sep, 1)[-1]`: the rest after the first `sep`, or all of `s`. */
  function LastOfSplitOnce(s: string, sep: char): (r: string)
    ensures sep in s ==> r == After(s, sep)
    ensures sep !in s ==> r == s
  {
    if sep in s then After(s, sep) else s
  }

  /** With a `sep` in `s`, `s.split(sep, 1)[-1]` is what follows the first one. */
  lemma LastOfSplitOnceSpec(s: string, sep: char)
    requires sep in s
    ensures exists i :: 0 <= i < |s| && s[i] == sep && sep !in s[..i] && LastOfSplitOnce(s, sep) == s[i + 1..]
  {
    FindIn(s, sep);
    FindIsFirst(s, {sep});
    var i := Find(s, {sep});
    assert sep !in s[..i] by {
      forall k | 0 <= k < i ensures s[..i][k] != sep { }
    }
  }

  /** `s.splitlines()` */
  function SplitLines(s: string): (lines: seq<string>)
    ensures |lines| <= |s|
    decreases |s|
  {
    if s == [] then []
    else
      var i := Find(s, LineBreaks);
      if i == |s| then [s]
      else
        var next := if s[i] == '\r' && i + 1 < |s| && s[i + 1] == '\n' then i + 2 else i + 1;
        [s[..i]] + SplitLines(s[next..])
  }

  /** Splitting and joining on the same separator gives the text back. */
  lemma {:induction false} JoinSplit(s: string, sep: char)
    ensures Join(Split(s, sep), sep) == s
    decreases |s|
  {
    var i := Find(s, {sep});
    if i < |s| {
      var rest := s[i + 1..];
      var tail := Split(rest, sep);
      JoinSplit(rest, sep);
      var parts := Split(s, sep);
      assert parts == [s[..i]] + tail;
      assert parts[1..] == tail;
      assert Join(parts, sep) == s[..i] + [sep] + Join(tail, sep);
      assert s == s[..i] + [sep] + rest;
    }
  }

  /** No piece of a split holds the separator; there is one piece exactly when `s` has none. */
  lemma {:induction false} SplitPieces(s: string, sep: char)
    ensures |Split(s, sep)| == 1 <==> sep !in s
    ensures forall k :: 0 <= k < |Split(s, sep)| ==> sep !in Split(s, sep)[k]
    decreases |s|
  {
    var i := Find(s, {sep});
    FindIn(s, sep);
    FindIsFirst(s, {sep});
    if i < |s| {
      SplitPieces(s[i + 1..], sep);
      assert Split(s, sep) == [s[..i]] + Split(s[i + 1..], sep);
    }
  }

  /** Joining pieces free of the separator and splitting gives the pieces back. */
  lemma {:induction false} SplitJoin(parts: seq<string>, sep: char)
    requires |parts| >= 1
    requires forall k :: 0 <= k < |parts| ==> sep !in parts[k]
    ensures Split(Join(parts, sep), sep) == parts
    decreases |parts|
  {
    if |parts| == 1 {
      var p := parts[0];
      assert forall k :: 0 <= k < |p| ==> p[k] != sep;
      assert Find(p, {sep}) == |p|;
    } else {
      SplitJoin(parts[1..], sep);
      SplitAtFirst(parts[0], Join(parts[1..], sep), sep);
      assert parts == [parts[0]] + parts[1..];
    }
  }

  /** Splitting at a `sep` preceded by none splits off the text before it. */
  lemma SplitAtFirst(p: string, rest: string, sep: char)
    requires sep !in p
    ensures Split(p + [sep] + rest, sep) == [p] + Split(rest, sep)
  {
    var s := p + [sep] + rest;
    assert s == p + ([sep] + rest);
    FindAfterFree(p, [sep] + rest, sep);
    assert s[..|p|] == p;
    assert s[|p| + 1..] == rest;
  }

  /** The first `sep` of `p + q` is the first of `q` when `p` holds none. */
  lemma {:induction false} FindAfterFree(p: string, q: string, sep: char)
    requires sep !in p
    requires q != [] && q[0] == sep
    ensures Find(p + q, {sep}) == |p|
  {
    var s := p + q;
    FindIsFirst(s, {sep});
    assert s[|p|] == sep;
  }

  /** `s.split(sep)[1]` is the text between the first and the second `sep`. */
  lemma SecondField(s: string, sep: char)
    requires sep in s
    ensures |Split(s, sep)| >= 2
    ensures Split(s, sep)[1] == Before(After(s, sep), sep)
  {
    var i := Find(s, {sep});
    FindIn(s, sep);
    assert Split(s, sep) == [s[..i]] + Split(s[i + 1..], sep);
    SplitHead(s[i + 1..], sep);
  }

  /** `s.split(sep)[1]`: the text between the first and the second `sep`. */
  function SecondPiece(s: string, sep: char): (r: string)
    requires sep in s
    ensures r == Before(After(s, sep), sep)
  {
    SecondField(s, sep);
    Split(s, sep)[1]
  }

  /** The first piece of a split is the text before the first separator. */
  lemma SplitHead(s: string, sep: char)
    ensures Split(s, sep)[0] == Before(s, sep)
  {
  }

  /** A text whose only line-break character is "\n". */
  predicate NewlineOnly(s: string) {
    forall i :: 0 <= i < |s| ==> s[i] == '\n' || s[i] !in LineBreaks
  }

  /** In such a text the first line break is the first "\n". */
  lemma FindNewline(s: string)
    requires NewlineOnly(s)
    ensures Find(s, LineBreaks) == Find(s, {'\n'})
  {
    var i, j := Find(s, LineBreaks), Find(s, {'\n'});
    FindIsFirst(s, LineBreaks);
    FindIsFirst(s, {'\n'});
    assert j < |s| ==> s[j] in LineBreaks;
    assert i < |s| ==> s[i] == '\n';
  }

  /** Cutting `s` after its first match does not move that match. */
  lemma FindInPrefix(s: string, t: string, cs: set<char>)
    requires |t| <= |s| && t == s[..|t|]
    requires Find(s, cs) < |t|
    ensures Find(t, cs) == Find(s, cs)
  {
    var i := Find(s, cs);
    FindIsFirst(s, cs);
    FindIsFirst(t, cs);
    assert t[i] == s[i];
    assert forall k :: 0 <= k < i ==> t[k] == s[k];
  }

  /** One step of `splitlines()` at a "\n". */
  lemma SplitLinesStep(s: string, i: nat)
    requires i == Find(s, LineBreaks) && i < |s| && s[i] == '\n'
    ensures SplitLines(s) == [s[..i]] + SplitLines(s[i + 1..])
  {
  }

  /** One step of `split(sep)`. */
  lemma SplitStep(s: string, sep: char, i: nat)
    requires i == Find(s, {sep}) && i < |s|
    ensures Split(s, sep) == [s[..i]] + Split(s[i + 1..], sep)
  {
  }

  /** Dropping a final "\n" that is not the first one keeps the first split step. */
  lemma SplitDropLast(s: string, i: nat)
    requires i == Find(s, {'\n'}) && i < |s| - 1 && s[|s| - 1] == '\n'
    ensures Split(s[..|s| - 1], '\n') == [s[..i]] + Split(s[i + 1..|s| - 1], '\n')
  {
    var t := s[..|s| - 1];
    FindInPrefix(s, t, {'\n'});
    SplitStep(t, '\n', i);
    assert t[i + 1..] == s[i + 1..|s| - 1];
    assert t[..i] == s[..i];
  }

  /**
   * For a text whose only line break is "\n", `splitlines()` is `split("\n")`
   * of the text without its final "\n".
   */
  lemma {:induction false} SplitLinesOfNewlineText(s: string)
    requires NewlineOnly(s)
    ensures SplitLines(s) ==
      if s == [] then []
      else if s[|s| - 1] == '\n' then Split(s[..|s| - 1], '\n')
      else Split(s, '\n')
    decreases |s|
  {
    if s == [] {
    } else {
      FindNewline(s);
      var i := Find(s, {'\n'});
      if i == |s| {
        FindIsFirst(s, {'\n'});
        assert s[|s| - 1] != '\n';
        assert SplitLines(s) == [s];
      } else {
        var rest := s[i + 1..];
        SplitLinesStep(s, i);
        assert NewlineOnly(rest) by {
          assert forall k :: 0 <= k < |rest| ==> rest[k] == s[i + 1 + k];
        }
        SplitLinesOfNewlineText(rest);
        if s[|s| - 1] != '\n' {
          SplitStep(s, '\n', i);
        } else if i == |s| - 1 {
          var t := s[..|s| - 1];
          assert rest == [];
          FindIsFirst(s, {'\n'});
          assert Find(t, {'\n'}) == |t| by {
            FindIsFirst(t, {'\n'});
            assert forall k :: 0 <= k < |t| ==> t[k] == s[k];
          }
        } else {
          SplitDropLast(s, i);
          assert rest != [] && rest[|rest| - 1] == '\n';
          assert rest[..|rest| - 1] == s[i + 1..|s| - 1];
        }
      }
    }
  }
}

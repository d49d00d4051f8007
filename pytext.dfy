/**
 * The parts of Python's `str` and list semantics that the error assistant
 * relies on: `str.isspace`/`str.strip()`, `str.splitlines()`,
 * `"\n".join(...)` and the negative slice `lines[-n:]`.
 * Strings are sequences of Unicode scalar values.
 */
module PyText {

  /** Characters for which Python's `str.isspace()` is true. */
  predicate IsSpace(c: char) {
    c == ' ' || ('\t' <= c <= '\r') || ('\U{1C}' <= c <= '\U{1F}') ||
    c == '\U{85}' || c == '\U{A0}' || c == '\U{1680}' ||
    ('\U{2000}' <= c <= '\U{200A}') || c == '\U{2028}' || c == '\U{2029}' ||
    c == '\U{202F}' || c == '\U{205F}' || c == '\U{3000}'
  }

  /** Characters at which Python's `str.splitlines()` ends a line
      (`\r\n` is also one boundary, handled in SplitLines). */
  predicate IsLineBreak(c: char) {
    ('\n' <= c <= '\r') || ('\U{1C}' <= c <= '\U{1E}') ||
    c == '\U{85}' || c == '\U{2028}' || c == '\U{2029}'
  }

  predicate AllSpace(s: string) {
    forall k :: 0 <= k < |s| ==> IsSpace(s[k])
  }

  predicate NoBreak(s: string) {
    forall k :: 0 <= k < |s| ==> !IsLineBreak(s[k])
  }

  /** Every line boundary is whitespace, so `strip()` removes trailing boundaries. */
  lemma LineBreakIsSpace(c: char)
    requires IsLineBreak(c)
    ensures IsSpace(c)
  {
  }

  // ---------------------------------------------------------------- strip

  /** Every character of `s[lo..hi]` is whitespace. */
  predicate SpaceBetween(s: string, lo: nat, hi: nat)
    requires lo <= hi <= |s|
  {
    forall k :: lo <= k < hi ==> IsSpace(s[k])
  }

  /** The first index at or after `i` that does not hold whitespace. */
  function SkipSpaces(s: string, i: nat): (j: nat)
    requires i <= |s|
    ensures i <= j <= |s| && SpaceBetween(s, i, j)
    ensures j < |s| ==> !IsSpace(s[j])
    decreases |s| - i
  {
    if i < |s| && IsSpace(s[i]) then SkipSpaces(s, i + 1) else i
  }

  /** The end of `s[lo..j]` once trailing whitespace is removed. */
  function TrimEnd(s: string, lo: nat, j: nat): (k: nat)
    requires lo <= j <= |s|
    ensures lo <= k <= j && SpaceBetween(s, k, j)
    ensures k > lo ==> !IsSpace(s[k - 1])
    decreases j
  {
    if j > lo && IsSpace(s[j - 1]) then TrimEnd(s, lo, j - 1) else j
  }

  /** Python's `s.strip()`: the part of `s` left after removing whitespace
      at both ends. */
  function Strip(s: string): (r: string)
    ensures exists i, j :: 0 <= i <= j <= |s| && r == s[i..j] && SpaceBetween(s, 0, i) && SpaceBetween(s, j, |s|)
    ensures r == [] || (!IsSpace(r[0]) && !IsSpace(r[|r| - 1]))
    ensures r == [] <==> AllSpace(s)
  {
    var i := SkipSpaces(s, 0);
    var j := TrimEnd(s, i, |s|);
    assert i < j ==> s[i..j][0] == s[i] && s[i..j][j - i - 1] == s[j - 1];
    s[i..j]
  }

  /** Stripping twice changes nothing more. */
  lemma StripIdempotent(s: string)
    ensures Strip(Strip(s)) == Strip(s)
  {
  }

  // ----------------------------------------------------------- splitlines

  /** Index of the first line boundary in `s`, or `|s|` when there is none. */
  function FirstBreak(s: string): (i: nat)
    ensures i <= |s| && NoBreak(s[..i])
    ensures i < |s| ==> IsLineBreak(s[i])
  {
    if s == [] || IsLineBreak(s[0]) then 0
    else
      var j := FirstBreak(s[1..]);
      assert s[..1 + j] == [s[0]] + s[1..][..j];
      1 + j
  }

  /** Python's `s.splitlines()`: the lines of `s` without their terminators;
      a final terminator does not open an empty last line. */
  function SplitLines(s: string): (lines: seq<string>)
    ensures s == [] <==> lines == []
    ensures forall k :: 0 <= k < |lines| ==> NoBreak(lines[k])
    ensures NoBreak(s) && s != [] ==> lines == [s]
    decreases |s|
  {
    if s == [] then []
    else
      var i := FirstBreak(s);
      if i == |s| then [s]
      else
        [s[..i]] + SplitLines(s[LineEnd(s, i)..])
  }

  /** Where the next line starts after the boundary at `i`: a `\r\n` pair
      counts as one boundary. */
  function LineEnd(s: string, i: nat): (next: nat)
    requires i < |s|
    ensures i < next <= |s|
  {
    if s[i] == '\r' && i + 1 < |s| && s[i + 1] == '\n' then i + 2 else i + 1
  }

  lemma SplitLinesAtBreak(s: string)
    requires FirstBreak(s) < |s|
    ensures SplitLines(s) == [s[..FirstBreak(s)]] + SplitLines(s[LineEnd(s, FirstBreak(s))..])
  {
  }

  /** Python's `"\n".join(lines)`: the first line starts the result, and the
      result is empty only for no lines or one empty line. */
  function JoinLines(lines: seq<string>): (r: string)
    ensures lines != [] ==> lines[0] <= r
    ensures r == "" <==> (lines == [] || lines == [""])
  {
    if |lines| == 0 then ""
    else if |lines| == 1 then lines[0]
    else lines[0] + "\n" + JoinLines(lines[1..])
  }

  /** `lines` without its last element when that element is the empty line. */
  function DropFinalEmpty(lines: seq<string>): seq<string>
  {
    if lines != [] && lines[|lines| - 1] == "" then lines[..|lines| - 1] else lines
  }

  lemma FirstBreakAfterLine(x: string, c: char, y: string)
    requires NoBreak(x) && IsLineBreak(c)
    ensures FirstBreak(x + [c] + y) == |x|
    decreases |x|
  {
    var s := x + [c] + y;
    if x == [] {
      assert s[0] == c;
    } else {
      assert s[0] == x[0];
      assert s[1..] == x[1..] + [c] + y;
      FirstBreakAfterLine(x[1..], c, y);
    }
  }

  lemma SplitLinesAfterLine(x: string, j: string)
    requires NoBreak(x)
    ensures SplitLines(x + "\n" + j) == [x] + SplitLines(j)
  {
    var s := x + "\n" + j;
    FirstBreakAfterLine(x, '\n', j);
    assert s[..|x|] == x && s[|x| + 1..] == j;
    SplitLinesAtBreak(s);
  }

  lemma SplitSingleLine(x: string)
    requires NoBreak(x)
    ensures SplitLines(x) == DropFinalEmpty([x])
  {
  }

  lemma SplitJoinStep(x: string, rest: seq<string>)
    requires NoBreak(x) && rest != []
    requires SplitLines(JoinLines(rest)) == DropFinalEmpty(rest)
    ensures SplitLines(JoinLines([x] + rest)) == DropFinalEmpty([x] + rest)
  {
    var lines := [x] + rest;
    assert lines[1..] == rest;
    SplitLinesAfterLine(x, JoinLines(rest));
    if rest[|rest| - 1] == "" {
      assert lines[..|lines| - 1] == [x] + rest[..|rest| - 1];
    }
  }

  /** Splitting a `"\n"`-joined list of break-free lines gives the lines back,
      except that an empty last line is lost. */
  lemma {:induction false} SplitJoin(lines: seq<string>)
    requires forall k :: 0 <= k < |lines| ==> NoBreak(lines[k])
    ensures SplitLines(JoinLines(lines)) == DropFinalEmpty(lines)
    decreases |lines|
  {
    if |lines| > 1 {
      SplitJoin(lines[1..]);
      SplitJoinStep(lines[0], lines[1..]);
      assert [lines[0]] + lines[1..] == lines;
    } else if |lines| == 1 {
      SplitSingleLine(lines[0]);
    }
  }

  /** The text after the last line boundary of `s` (all of `s` when it has none). */
  function AfterLastBreak(s: string): (r: string)
    ensures |r| <= |s| && r == s[|s| - |r|..] && NoBreak(r)
    ensures forall k :: |s| - |r| <= k < |s| ==> !IsLineBreak(s[k])
    ensures |r| < |s| ==> IsLineBreak(s[|s| - |r| - 1])
    ensures s != [] && !IsLineBreak(s[|s| - 1]) ==> r != []
  {
    if s == [] || IsLineBreak(s[|s| - 1]) then []
    else AfterLastBreak(s[..|s| - 1]) + [s[|s| - 1]]
  }

  /** `s.splitlines()[-1]`, defined whenever `s` is not empty. */
  function LastLine(s: string): (r: string)
    requires s != []
    ensures NoBreak(r)
  {
    var lines := SplitLines(s);
    lines[|lines| - 1]
  }

  lemma {:induction false} FirstBreakAtMost(s: string, p: nat)
    requires p < |s| && IsLineBreak(s[p])
    ensures FirstBreak(s) <= p
    decreases p
  {
    if !IsLineBreak(s[0]) {
      assert s[1..][p - 1] == s[p];
      FirstBreakAtMost(s[1..], p - 1);
    }
  }

  lemma {:induction false} LastLineAfterBreakAt(s: string, p: nat)
    requires p + 1 < |s| && IsLineBreak(s[p])
    requires forall k :: p < k < |s| ==> !IsLineBreak(s[k])
    ensures LastLine(s) == s[p + 1..]
    decreases |s|
  {
    var i := FirstBreak(s);
    FirstBreakAtMost(s, p);
    SplitLinesAtBreak(s);
    var next := LineEnd(s, i);
    assert s[p + 1..][0] == s[p + 1];
    assert next <= p + 1;
    var t := s[next..];
    if next < p + 1 {
      assert t[p - next] == s[p] && t[p - next + 1..] == s[p + 1..];
      LastLineAfterBreakAt(t, p - next);
    } else {
      assert NoBreak(t);
    }
  }

  lemma LastLineOfUnbroken(s: string)
    requires s != [] && |AfterLastBreak(s)| == |s|
    ensures LastLine(s) == AfterLastBreak(s)
  {
    assert NoBreak(s);
  }

  lemma LastLineOfBroken(s: string)
    requires s != [] && !IsLineBreak(s[|s| - 1]) && |AfterLastBreak(s)| < |s|
    ensures LastLine(s) == AfterLastBreak(s)
  {
    var r := AfterLastBreak(s);
    var p := |s| - |r| - 1;
    assert r != [];
    assert IsLineBreak(s[p]);
    assert forall k :: p < k < |s| ==> !IsLineBreak(s[k]);
    LastLineAfterBreakAt(s, p);
    assert s[p + 1..] == r;
  }

  /** When `s` does not end in a line boundary, the last line is exactly the
      text after its last boundary. */
  lemma LastLineIsFinalSegment(s: string)
    requires s != [] && !IsLineBreak(s[|s| - 1])
    ensures LastLine(s) == AfterLastBreak(s)
  {
    if |AfterLastBreak(s)| < |s| {
      LastLineOfBroken(s);
    } else {
      LastLineOfUnbroken(s);
    }
  }

  // --------------------------------------------------------------- slices

  function Min(a: int, b: int): int { if a <= b then a else b }

  /** Python's `xs[-n:]` for `n >= 0`: the last `n` elements, all of them when
      there are fewer, and (because `-0 == 0`) all of them when `n == 0`. */
  function TailOf<T>(xs: seq<T>, n: nat): (r: seq<T>)
    ensures |r| <= |xs| && r == xs[|xs| - |r|..]
    ensures n > 0 ==> |r| == Min(n, |xs|)
    ensures n == 0 ==> r == xs
  {
    if n == 0 || n >= |xs| then xs else xs[|xs| - n..]
  }
}

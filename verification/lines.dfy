/**
 Python's `str.splitlines()` (without `keepends`): the text is cut at every
 line boundary, the boundaries are dropped, and a boundary at the very end
 does not start an extra empty line.
 */
module Lines {

  import Strings

  /** The characters `str.splitlines` treats as line boundaries: line feed,
      carriage return, vertical tab, form feed, the file, group and record
      separators U+001C..U+001E, next line U+0085, and the line and paragraph
      separators U+2028, U+2029. A carriage return directly followed by a
      line feed is one boundary. */
  predicate IsLineBreak(ch: char)
  {
    || ch == '\n' || ch == '\r' || ch == '\U{000B}' || ch == '\U{000C}'
    || ch == '\U{001C}' || ch == '\U{001D}' || ch == '\U{001E}'
    || ch == '\U{0085}' || ch == '\U{2028}' || ch == '\U{2029}'
  }

  predicate NoBreak(s: string)
  {
    forall i :: 0 <= i < |s| ==> !IsLineBreak(s[i])
  }

  /** Index of the first line boundary in `s`, or `|s|` when there is none. */
  function FirstBreak(s: string): (i: nat)
    ensures i <= |s|
    ensures i < |s| ==> IsLineBreak(s[i])
    ensures NoBreak(s[..i])
  {
    if s == [] then 0
    else if IsLineBreak(s[0]) then 0
    else
      var j := FirstBreak(s[1..]);
      assert s[..j + 1] == [s[0]] + s[1..][..j];
      j + 1
  }

  /** Length of the boundary starting at `s[i]`: two for "\r\n", else one. */
  function BreakLength(s: string, i: nat): (n: nat)
    requires i < |s| && IsLineBreak(s[i])
    ensures 1 <= n <= |s| - i
  {
    if s[i] == '\r' && i + 1 < |s| && s[i + 1] == '\n' then 2 else 1
  }

  /** The lines of `s`, in order, with their boundaries removed. */
  function SplitLines(s: string): (lines: seq<string>)
    ensures |lines| <= |s|
    ensures lines == [] <==> s == ""
    ensures forall k :: 0 <= k < |lines| ==> NoBreak(lines[k])
    decreases |s|
  {
    if s == [] then []
    else
      var i := FirstBreak(s);
      if i == |s| then
        assert s[..i] == s;
        [s]
      else
        [s[..i]] + SplitLines(s[i + BreakLength(s, i)..])
  }

  /** Joining boundary-free pieces with a character that is not a boundary
      gives a boundary-free string. */
  lemma {:induction false} NoBreakJoin(parts: seq<string>, c: char)
    requires !IsLineBreak(c)
    requires forall k :: 0 <= k < |parts| ==> NoBreak(parts[k])
    ensures NoBreak(Strings.Join(parts, c))
  {
    if |parts| > 1 {
      NoBreakJoin(parts[1..], c);
      var s := Strings.Join(parts, c);
      var t := Strings.Join(parts[1..], c);
      assert s == parts[0] + [c] + t;
      forall i | 0 <= i < |s|
        ensures !IsLineBreak(s[i])
      {
        if i < |parts[0]| {
          assert s[i] == parts[0][i];
        } else if i > |parts[0]| {
          assert s[i] == t[i - |parts[0]| - 1];
        }
      }
    }
  }

  /** Every line followed by a line feed, as `git status --porcelain`
      prints its entries. */
  function Terminated(lines: seq<string>): string
  {
    if lines == [] then "" else lines[0] + "\n" + Terminated(lines[1..])
  }

  /** The first boundary of `a + t` is the one that begins `t` when `a`
      has none. */
  lemma {:induction false} FirstBreakAfter(a: string, t: string)
    requires NoBreak(a)
    requires t != [] && IsLineBreak(t[0])
    ensures FirstBreak(a + t) == |a|
  {
    if a != [] {
      assert (a + t)[1..] == a[1..] + t;
      FirstBreakAfter(a[1..], t);
    }
  }

  /** A line feed ends a line and starts the next one. */
  lemma SplitLinesAfterLine(a: string, t: string)
    requires NoBreak(a)
    ensures SplitLines(a + "\n" + t) == [a] + SplitLines(t)
  {
    var s := a + "\n" + t;
    FirstBreakAfter(a, "\n" + t);
    assert s == a + ("\n" + t);
    assert s[..|a|] == a;
    assert s[|a|] == '\n';
    assert BreakLength(s, |a|) == 1;
    assert s[|a| + 1..] == t;
  }

  /** Lines that each end in a line feed split back into exactly those
      lines, empty ones included. */
  lemma {:induction false} SplitLinesOfTerminated(lines: seq<string>)
    requires forall k :: 0 <= k < |lines| ==> NoBreak(lines[k])
    ensures SplitLines(Terminated(lines)) == lines
  {
    if lines != [] {
      SplitLinesOfTerminated(lines[1..]);
      SplitLinesAfterLine(lines[0], Terminated(lines[1..]));
      assert [lines[0]] + lines[1..] == lines;
    }
  }

  /** Lines separated (not terminated) by line feeds split back into the
      same lines, provided the last one is not empty: an empty last line
      leaves only a trailing line feed, which `splitlines` drops. */
  lemma {:induction false} SplitLinesOfJoin(lines: seq<string>)
    requires forall k :: 0 <= k < |lines| ==> NoBreak(lines[k])
    requires lines == [] || lines[|lines| - 1] != ""
    ensures SplitLines(Strings.Join(lines, '\n')) == lines
  {
    if |lines| == 1 {
      var s := lines[0];
      assert FirstBreak(s) == |s|;
    } else if |lines| > 1 {
      SplitLinesOfJoin(lines[1..]);
      SplitLinesAfterLine(lines[0], Strings.Join(lines[1..], '\n'));
      assert lines[0] + ['\n'] + Strings.Join(lines[1..], '\n')
          == lines[0] + "\n" + Strings.Join(lines[1..], '\n');
      assert [lines[0]] + lines[1..] == lines;
    }
  }
}

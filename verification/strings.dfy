/**
 Splitting a string on a one-character separator, as Python's
 `str.split(sep)` does, and the matching `sep.join(parts)`.
 */
module Strings {

  /** Number of occurrences of `c` in `s`. */
  function Count(s: string, c: char): (n: nat)
    ensures n <= |s|
    ensures n == 0 <==> c !in s
  {
    if s == [] then 0
    else (if s[0] == c then 1 else 0) + Count(s[1..], c)
  }

  /** Index of the first `c` in `s`, or `|s|` when there is none. */
  function IndexOf(s: string, c: char): (i: nat)
    ensures i <= |s|
    ensures i < |s| ==> s[i] == c
    ensures c !in s[..i]
  {
    if s == [] || s[0] == c then 0
    else
      var j := IndexOf(s[1..], c);
      assert s[..j + 1] == [s[0]] + s[1..][..j];
      j + 1
  }

  /** `Join(parts, c)` glues the pieces together with one `c` between
      neighbours; the empty list joins to the empty string. */
  function Join(parts: seq<string>, c: char): string
  {
    if |parts| == 0 then ""
    else if |parts| == 1 then parts[0]
    else parts[0] + [c] + Join(parts[1..], c)
  }

  /** The maximal `c`-free pieces of `s`, left to right. Like Python's
      `s.split(c)` there is always at least one piece: `""` splits to
      `[""]` and a separator at either end gives an empty piece there. */
  function Split(s: string, c: char): (parts: seq<string>)
    ensures |parts| >= 1
    ensures forall k :: 0 <= k < |parts| ==> c !in parts[k]
    decreases |s|
  {
    var i := IndexOf(s, c);
    if i == |s| then
      assert s[..i] == s;
      [s]
    else
      [s[..i]] + Split(s[i + 1..], c)
  }

  lemma {:induction false} CountAppend(a: string, b: string, c: char)
    ensures Count(a + b, c) == Count(a, c) + Count(b, c)
  {
    if a != [] {
      assert (a + b)[0] == a[0];
      assert (a + b)[1..] == a[1..] + b;
      CountAppend(a[1..], b, c);
    } else {
      assert a + b == b;
    }
  }

  /** One more piece than there are separators. */
  lemma {:induction false} SplitCount(s: string, c: char)
    ensures |Split(s, c)| == Count(s, c) + 1
    decreases |s|
  {
    var i := IndexOf(s, c);
    if i < |s| {
      var t := s[i + 1..];
      SplitCount(t, c);
      assert Split(s, c) == [s[..i]] + Split(t, c);
      assert s == s[..i] + ([c] + t);
      CountAppend(s[..i], [c] + t, c);
      assert ([c] + t)[1..] == t;
      assert Count([c] + t, c) == 1 + Count(t, c);
    } else {
      assert s[..i] == s;
    }
  }

  /** Join undoes Split: gluing the pieces back together with the
      separator gives the original string. */
  lemma {:induction false} JoinOfSplit(s: string, c: char)
    ensures Join(Split(s, c), c) == s
    decreases |s|
  {
    var i := IndexOf(s, c);
    if i < |s| {
      JoinOfSplit(s[i + 1..], c);
      var parts := Split(s, c);
      assert parts[1..] == Split(s[i + 1..], c);
      assert s == s[..i] + [c] + s[i + 1..];
    } else {
      assert s[..i] == s;
    }
  }

  /** Splitting a string that starts with a separator-free piece `a`
      followed by a separator yields `a` and then the pieces of the rest. */
  lemma SplitAfterPiece(a: string, t: string, c: char)
    requires c !in a
    ensures Split(a + [c] + t, c) == [a] + Split(t, c)
  {
    var s := a + [c] + t;
    assert s[..|a|] == a;
    assert s[|a|] == c;
    assert IndexOf(s, c) == |a|;
    assert s[|a| + 1..] == t;
  }

  /** A separator-free string is a single piece. */
  lemma SplitOfPiece(a: string, c: char)
    requires c !in a
    ensures Split(a, c) == [a]
  {
    assert a[..IndexOf(a, c)] == a;
  }

  /** Split undoes Join: gluing separator-free pieces together and
      splitting the result gives the pieces back. */
  lemma {:induction false} SplitOfJoin(parts: seq<string>, c: char)
    requires |parts| >= 1
    requires forall k :: 0 <= k < |parts| ==> c !in parts[k]
    ensures Split(Join(parts, c), c) == parts
  {
    if |parts| == 1 {
      SplitOfPiece(parts[0], c);
    } else {
      SplitOfJoin(parts[1..], c);
      SplitAfterPiece(parts[0], Join(parts[1..], c), c);
      assert [parts[0]] + parts[1..] == parts;
    }
  }

  /** Joining splits at a boundary between the first `k` pieces and the rest. */
  lemma {:induction false} JoinAt(parts: seq<string>, k: nat, c: char)
    requires 1 <= k < |parts|
    ensures Join(parts, c) == Join(parts[..k], c) + [c] + Join(parts[k..], c)
  {
    if k > 1 {
      JoinAt(parts[1..], k - 1, c);
      assert parts[1..][..k - 1] == parts[..k][1..];
      assert parts[1..][k - 1..] == parts[k..];
    }
  }
}

/**
 Case folding of the action name. Only the ASCII letters A-Z are folded;
 see README.md for why that decides the same routing as Python's
 Unicode `str.lower` for the two action names the tool accepts.
 */
module Ascii {

  predicate IsUpper(ch: char)
  {
    'A' <= ch <= 'Z'
  }

  predicate IsLower(ch: char)
  {
    'a' <= ch <= 'z'
  }

  function LowerChar(ch: char): char
  {
    if IsUpper(ch) then (ch as int + 32) as char else ch
  }

  function UpperChar(ch: char): char
  {
    if IsLower(ch) then (ch as int - 32) as char else ch
  }

  /** `s` with every ASCII capital replaced by its small letter. */
  function ToLower(s: string): string
  {
    seq(|s|, i requires 0 <= i < |s| => LowerChar(s[i]))
  }

  /** `s` spells the capital-free word `t` up to the case of each letter. */
  predicate IsCaseVariant(s: string, t: string)
  {
    && |s| == |t|
    && forall i :: 0 <= i < |s| ==> s[i] == t[i] || s[i] == UpperChar(t[i])
  }

  /** Folding `s` yields the capital-free word `t` exactly when `s` is `t`
      with any of its letters written as capitals ("Status", "LOG", ...). */
  lemma ToLowerMatches(s: string, t: string)
    requires forall i :: 0 <= i < |t| ==> !IsUpper(t[i])
    ensures ToLower(s) == t <==> IsCaseVariant(s, t)
  {
    if ToLower(s) == t {
      forall i | 0 <= i < |s|
        ensures s[i] == t[i] || s[i] == UpperChar(t[i])
      {
        assert LowerChar(s[i]) == t[i];
      }
    }
    if IsCaseVariant(s, t) {
      forall i | 0 <= i < |s|
        ensures ToLower(s)[i] == t[i]
      {
        assert s[i] == t[i] || s[i] == UpperChar(t[i]);
      }
    }
  }
}

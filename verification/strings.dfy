/** The string functions of Go that the models share. A string is a sequence of code points;
    lower-casing is that of ASCII letters. */
module Strings {

  /** The white space of unicode.IsSpace. */
  predicate IsSpace(c: char) {
    || '\t' <= c <= '\r' || c == ' ' || c == '\U{85}' || c == '\U{A0}' || c == '\U{1680}'
    || '\U{2000}' <= c <= '\U{200A}' || c == '\U{2028}' || c == '\U{2029}' || c == '\U{202F}'
    || c == '\U{205F}' || c == '\U{3000}'
  }

  function TrimLeft(s: string, drop: char -> bool): (r: string)
    ensures r == "" || !drop(r[0])
    ensures |r| <= |s| && s[|s| - |r|..] == r
  {
    if s != "" && drop(s[0]) then TrimLeft(s[1..], drop) else s
  }

  function TrimRight(s: string, drop: char -> bool): (r: string)
    ensures r == "" || !drop(r[|r| - 1])
    ensures r <= s
  {
    if s != "" && drop(s[|s| - 1]) then TrimRight(s[..|s| - 1], drop) else s
  }

  function Trim(s: string, drop: char -> bool): (r: string)
    ensures r == "" || (!drop(r[0]) && !drop(r[|r| - 1]))
    ensures |r| <= |s| && forall c :: c in r ==> c in s
  {
    TrimRight(TrimLeft(s, drop), drop)
  }

  function LowerChar(c: char): char {
    if 'A' <= c <= 'Z' then c - 'A' + 'a' else c
  }

  function Lower(s: string): string {
    seq(|s|, i requires 0 <= i < |s| => LowerChar(s[i]))
  }

  predicate EndsWith(s: string, tail: string) {
    |tail| <= |s| && s[|s| - |tail|..] == tail
  }

  lemma TrimKeeps(s: string, drop: char -> bool)
    requires s != "" ==> !drop(s[0]) && !drop(s[|s| - 1])
    ensures Trim(s, drop) == s
  {
  }

  lemma {:induction false} TrimLeftSkips(before: string, s: string, drop: char -> bool)
    requires forall c :: c in before ==> drop(c)
    requires s != "" ==> !drop(s[0])
    ensures TrimLeft(before + s, drop) == s
    decreases |before|
  {
    if before == "" {
      assert before + s == s;
    } else {
      assert before[0] in before && (before + s)[1..] == before[1..] + s;
      TrimLeftSkips(before[1..], s, drop);
    }
  }

  lemma {:induction false} TrimRightSkips(s: string, after: string, drop: char -> bool)
    requires forall c :: c in after ==> drop(c)
    requires s != "" ==> !drop(s[|s| - 1])
    ensures TrimRight(s + after, drop) == s
    decreases |after|
  {
    if after == "" {
      assert s + after == s;
    } else {
      var n := |after| - 1;
      assert after[n] in after && (s + after)[..|s| + n] == s + after[..n];
      TrimRightSkips(s, after[..n], drop);
    }
  }

  /** What is to be dropped goes at both ends, and nothing else does. */
  lemma TrimSkips(before: string, s: string, after: string, drop: char -> bool)
    requires forall c :: c in before + after ==> drop(c)
    requires s != "" ==> !drop(s[0]) && !drop(s[|s| - 1])
    ensures Trim(before + s + after, drop) == s
  {
    assert forall c :: c in before ==> c in before + after;
    assert forall c :: c in after ==> c in before + after;
    if s == "" {
      assert before + s + after == before + after + "";
      TrimLeftSkips(before + after, "", drop);
    } else {
      assert before + s + after == before + (s + after);
      TrimLeftSkips(before, s + after, drop);
      TrimRightSkips(s, after, drop);
    }
  }
}

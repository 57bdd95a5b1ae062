/** truncateUTF8 of event.go. A Go string is modelled as a string whose characters stand
    for its bytes; UTF-8 is the grammar of section 4 of RFC 3629. */
module Utf8 {

  predicate InRange(c: char, lo: int, hi: int) {
    lo <= c as int <= hi
  }

  predicate Tail(c: char) {
    InRange(c, 0x80, 0xBF)
  }

  /** The number of bytes of the well-formed character s starts with; 0 if there is none. */
  function CharLength(s: string): nat {
    if |s| >= 1 && InRange(s[0], 0x00, 0x7F) then 1
    else if |s| >= 2 && InRange(s[0], 0xC2, 0xDF) && Tail(s[1]) then 2
    else if |s| >= 3 && ThreeByteStart(s[0], s[1]) && Tail(s[2]) then 3
    else if |s| >= 4 && FourByteStart(s[0], s[1]) && Tail(s[2]) && Tail(s[3]) then 4
    else 0
  }

  predicate ThreeByteStart(a: char, b: char) {
    || (InRange(a, 0xE0, 0xE0) && InRange(b, 0xA0, 0xBF))
    || (InRange(a, 0xE1, 0xEC) && Tail(b))
    || (InRange(a, 0xED, 0xED) && InRange(b, 0x80, 0x9F))
    || (InRange(a, 0xEE, 0xEF) && Tail(b))
  }

  predicate FourByteStart(a: char, b: char) {
    || (InRange(a, 0xF0, 0xF0) && InRange(b, 0x90, 0xBF))
    || (InRange(a, 0xF1, 0xF3) && Tail(b))
    || (InRange(a, 0xF4, 0xF4) && InRange(b, 0x80, 0x8F))
  }

  predicate IsUtf8(s: string)
    decreases |s|
  {
    s == "" || (var n := CharLength(s); 0 < n <= |s| && IsUtf8(s[n..]))
  }

  predicate IsRuneStart(c: char) {
    c as int < 0x80 || c as int >= 0xC0
  }

  /** Where the walk back from i stops. */
  function Boundary(s: string, i: nat): (r: nat)
    requires i < |s|
    ensures r <= i && (r == 0 || IsRuneStart(s[r]))
    ensures forall k :: r < k <= i ==> !IsRuneStart(s[k])
  {
    if i > 0 && !IsRuneStart(s[i]) then Boundary(s, i - 1) else i
  }

  function Truncated(s: string, max: nat): (r: string)
    ensures |r| <= max && r <= s
  {
    if |s| <= max then s else s[..Boundary(s, max)]
  }

  method TruncateUtf8(s: string, max: nat) returns (r: string, truncated: bool)
    ensures r == Truncated(s, max) && truncated == (|s| > max)
  {
    if |s| <= max {
      return s, false;
    }
    var i := max;
    while i > 0 && !IsRuneStart(s[i])
      invariant 0 <= i <= max && Boundary(s, i) == Boundary(s, max)
    {
      i := i - 1;
    }
    return s[..i], true;
  }

  /** In valid UTF-8 a position can be cut at exactly when a rune starts there, and a rune
      starts at most three bytes back from anywhere. */
  lemma {:induction false} CutsAreRuneStarts(s: string, i: nat)
    requires IsUtf8(s) && i < |s|
    ensures IsUtf8(s[..i]) <==> IsRuneStart(s[i])
    ensures exists k :: 0 <= k <= i && i - k <= 3 && IsRuneStart(s[k])
    decreases |s|
  {
    var n := CharLength(s);
    if i < n {
      assert IsRuneStart(s[0]);
      if i > 0 {
        PartOfACharacter(s, i);
      }
    } else {
      CutsAreRuneStarts(s[n..], i - n);
      var k :| 0 <= k <= i - n && i - n - k <= 3 && IsRuneStart(s[n..][k]);
      assert IsRuneStart(s[n + k]);
      assert s[n..][..i - n] == s[..i][n..];
      SameCharacter(s, i);
    }
  }

  lemma PartOfACharacter(s: string, i: nat)
    requires 0 < i < CharLength(s)
    ensures i < |s| && !IsUtf8(s[..i]) && !IsRuneStart(s[i])
  {
    assert CharLength(s[..i]) == 0;
  }

  lemma SameCharacter(s: string, i: nat)
    requires 0 < CharLength(s) <= i <= |s|
    ensures CharLength(s[..i]) == CharLength(s)
  {
  }

  /** For valid input the result is the longest valid prefix within the limit, and at most
      three bytes below it. */
  lemma TruncationIsTight(s: string, max: nat)
    requires IsUtf8(s)
    ensures IsUtf8(Truncated(s, max))
    ensures forall j :: |Truncated(s, max)| < j <= max && j <= |s| ==> !IsUtf8(s[..j])
    ensures |s| > max ==> |Truncated(s, max)| + 3 >= max
  {
    if |s| > max {
      var b := Boundary(s, max);
      CutsAreRuneStarts(s, max);
      if b == 0 {
        assert s[..b] == "";
      } else {
        CutsAreRuneStarts(s, b);
      }
      forall j | b < j <= max
        ensures !IsUtf8(s[..j])
      {
        CutsAreRuneStarts(s, j);
      }
    }
  }

  /** The comment that the result is always valid overstates it: every truncation of a text is
      valid UTF-8 if and only if the text itself is. */
  lemma AlwaysValidExactly(s: string)
    ensures (forall max: nat :: IsUtf8(Truncated(s, max))) <==> IsUtf8(s)
  {
    if IsUtf8(s) {
      forall max: nat
        ensures IsUtf8(Truncated(s, max))
      {
        TruncationIsTight(s, max);
      }
    } else {
      assert Truncated(s, |s|) == s;
    }
  }

  /** A long text can fail too: what precedes the cut is kept, valid or not. */
  lemma LongInvalidInput(ascii: string, max: nat)
    requires forall c :: c in ascii ==> InRange(c, 0x00, 0x7F)
    requires 1 <= max <= |ascii|
    ensures var s := [0xFF as char] + ascii;
      |s| > max && |Truncated(s, max)| == max && !IsUtf8(Truncated(s, max))
  {
    var s := [0xFF as char] + ascii;
    assert ascii[max - 1] in ascii && s[max] == ascii[max - 1];
    assert IsRuneStart(s[max]);
    assert Truncated(s, max)[0] == 0xFF as char;
  }
}

/** The string part of the sanitizer (sanitize.go): base64 payloads are replaced and the
    text is cut to the remaining budget. */
module SanitizeText {
  import opened Utf8

  const BASE64_REMOVED := "[base64 removed]"
  const BINARY_REMOVED := "[binary removed]"
  const DATA_PREFIX := "data:"
  const BASE64_MARK := ";base64,"
  const LONG_RUN: nat := 512
  const DATA_URL: nat := 64

  predicate Base64(c: char) {
    'A' <= c <= 'Z' || 'a' <= c <= 'z' || '0' <= c <= '9' || c == '+' || c == '/' || c == '_' || c == '-'
  }

  /** The length of the run of base64 characters s starts with. */
  function Run(s: string): (n: nat)
    ensures n <= |s| && (n < |s| ==> !Base64(s[n]))
    ensures forall i :: 0 <= i < n ==> Base64(s[i])
  {
    if s != "" && Base64(s[0]) then 1 + Run(s[1..]) else 0
  }

  function Padding(s: string): (n: nat)
    ensures n <= |s|
  {
    if s == "" || s[0] != '=' then 0
    else if |s| == 1 || s[1] != '=' then 1
    else 2
  }

  predicate At(s: string, sub: string, i: nat) {
    i + |sub| <= |s| && s[i..i + |sub|] == sub
  }

  predicate Contains(s: string, sub: string) {
    exists i :: 0 <= i < |s| && At(s, sub, i)
  }

  /** The pattern [A-Za-z0-9+/_-]+={0,2} on the whole string. */
  predicate WholeBase64(s: string) {
    Run(s) >= 1 && Run(s) + Padding(s[Run(s)..]) == |s|
  }

  predicate IsBase64Payload(s: string) {
    || (|s| >= DATA_URL && DATA_PREFIX <= s && Contains(s, BASE64_MARK))
    || (|s| >= LONG_RUN && WholeBase64(s))
  }

  /** How much of s one move of ReplaceAll consumes: a run, with its padding when it is
      long enough to match, or one other character. */
  function Consumed(s: string): (m: nat)
    requires s != ""
    ensures 0 < m <= |s|
  {
    var n := Run(s);
    if n >= LONG_RUN then n + Padding(s[n..]) else if n > 0 then n else 1
  }

  /** What that move emits. */
  function Emitted(s: string): (r: string)
    requires s != ""
    ensures r == s[..Consumed(s)] || r == BASE64_REMOVED
    ensures 0 < |r| <= Consumed(s) && |r| < LONG_RUN
    ensures Run(s) == 0 ==> r == s[..1]
  {
    if Run(s) >= LONG_RUN then BASE64_REMOVED else s[..Consumed(s)]
  }

  /** ReplaceAll for the pattern [A-Za-z0-9+/_-]{512,}={0,2}: the leftmost match starts
      where a long run starts and is greedy. */
  function ReplaceRuns(s: string): string
    decreases |s|
  {
    if s == "" then "" else Emitted(s) + ReplaceRuns(s[Consumed(s)..])
  }

  /** The text before the last budget check of sanitizeString. */
  function Cleaned(value: string, remaining: nat): string {
    var bounded := Truncated(value, remaining);
    if IsBase64Payload(bounded) then BASE64_REMOVED
    else if |bounded| >= LONG_RUN then ReplaceRuns(bounded)
    else bounded
  }

  function SanitizeString(value: string, remaining: nat): (string, nat) {
    var cleaned := Cleaned(value, remaining);
    if |cleaned| <= remaining then (cleaned, remaining - |cleaned|)
    else (Truncated(cleaned, remaining), 0)
  }

  // ----- Runs -----

  lemma {:induction false} RunAppend(a: string, b: string)
    ensures Run(a + b) == if Run(a) == |a| then |a| + Run(b) else Run(a)
  {
    if a == "" {
      assert a + b == b;
    } else {
      assert (a + b)[1..] == a[1..] + b;
      RunAppend(a[1..], b);
    }
  }

  /** No run of base64 characters reaches the limit, wherever it starts. */
  ghost predicate NoLongRun(s: string) {
    forall i :: 0 <= i < |s| ==> Run(s[i..]) < LONG_RUN
  }

  /** a cannot take part in a long run of a + b: it is short, or it ends in another
      character, and what follows it starts with one. */
  lemma NoLongRunAppend(a: string, b: string)
    requires NoLongRun(b) && 0 < |a| < LONG_RUN
    requires !Base64(a[|a| - 1]) || Run(b) == 0
    ensures NoLongRun(a + b)
  {
    forall i | 0 <= i < |a + b|
      ensures Run((a + b)[i..]) < LONG_RUN
    {
      ShortRunAt(a, b, i);
    }
  }

  lemma ShortRunAt(a: string, b: string, i: nat)
    requires NoLongRun(b) && 0 < |a| < LONG_RUN && i < |a| + |b|
    requires !Base64(a[|a| - 1]) || Run(b) == 0
    ensures Run((a + b)[i..]) < LONG_RUN
  {
    hide Run, Base64;
    TailOfJoin(a, b, i);
    if i < |a| { RunFromPiece(a[i..], b); }
  }

  lemma TailOfJoin(a: string, b: string, i: nat)
    requires i <= |a| + |b|
    ensures (a + b)[i..] == if i < |a| then a[i..] + b else b[i - |a|..]
  {
  }

  lemma RunFromPiece(a: string, b: string)
    requires 0 < |a| < LONG_RUN && (!Base64(a[|a| - 1]) || Run(b) == 0)
    ensures Run(a + b) < LONG_RUN
  {
    RunAppend(a, b);
  }

  lemma PieceEndsRun(s: string)
    requires s != ""
    ensures !Base64(Emitted(s)[|Emitted(s)| - 1]) || Consumed(s) == |s| || Run(s[Consumed(s)..]) == 0
  {
  }

  lemma {:induction false} ReplacedHasNoLongRun(s: string)
    ensures NoLongRun(ReplaceRuns(s))
    ensures Run(s) == 0 ==> Run(ReplaceRuns(s)) == 0
    decreases |s|
  {
    hide Emitted, Consumed, NoLongRun;
    if s == "" {
      EmptyHasNoRun();
    } else {
      var rest := s[Consumed(s)..];
      ReplacedHasNoLongRun(rest);
      PieceEndsRun(s);
      NoLongRunAppend(Emitted(s), ReplaceRuns(rest));
      RunAppend(Emitted(s), ReplaceRuns(rest));
    }
  }

  lemma EmptyHasNoRun()
    ensures NoLongRun("")
  {
  }

  lemma NoLongRunTail(s: string, m: nat)
    requires NoLongRun(s) && m <= |s|
    ensures NoLongRun(s[m..]) && Run(s) < LONG_RUN
  {
    assert s[0..] == s;
    assert forall i :: 0 <= i < |s[m..]| ==> s[m..][i..] == s[m + i..];
  }

  /** One move of ReplaceAll. */
  lemma FirstMove(s: string)
    requires s != ""
    ensures ReplaceRuns(s) == Emitted(s) + ReplaceRuns(s[Consumed(s)..])
    ensures s == s[..Consumed(s)] + s[Consumed(s)..]
    ensures Emitted(s) == s[..Consumed(s)] || Emitted(s) == BASE64_REMOVED
  {
    hide Emitted, Consumed, ReplaceRuns;
    SplitAt(s, Consumed(s));
    FirstMoveOnly(s);
  }

  lemma SplitAt(s: string, m: nat)
    requires m <= |s|
    ensures s == s[..m] + s[m..]
  {
  }

  lemma FirstMoveOnly(s: string)
    requires s != ""
    ensures ReplaceRuns(s) == Emitted(s) + ReplaceRuns(s[Consumed(s)..])
  {
    hide Emitted, Consumed;
  }

  lemma {:induction false} NothingToReplace(s: string)
    requires NoLongRun(s)
    ensures ReplaceRuns(s) == s
    decreases |s|
  {
    hide NoLongRun, ReplaceRuns, Consumed;
    if s == "" {
      NothingOfNothing();
    } else {
      NoLongRunTail(s, 0);
      NoLongRunTail(s, Consumed(s));
      FirstMove(s);
      NothingToReplace(s[Consumed(s)..]);
    }
  }

  lemma NothingOfNothing()
    ensures ReplaceRuns("") == ""
  {
  }

  lemma {:induction false} ReplacingShortens(s: string)
    ensures |ReplaceRuns(s)| <= |s|
    decreases |s|
  {
    hide Emitted, Consumed;
    if s != "" { ReplacingShortens(s[Consumed(s)..]); }
  }

  // ----- What replacing leaves in place -----

  ghost predicate Agree(r: string, s: string, k: nat) {
    k <= |r| && k <= |s| && forall j :: 0 <= j < k ==> r[j] == s[j]
  }

  ghost predicate NoBracket(r: string, k: nat) {
    k <= |r| && forall j :: 0 <= j < k ==> r[j] != '['
  }

  lemma AgreeJoin(head: string, r: string, s: string, k: nat)
    requires k > |head| ==> Agree(r, s, k - |head|)
    ensures Agree(head + r, head + s, k)
  {
  }

  lemma NoBracketBehind(head: string, r: string, k: nat)
    requires NoBracket(head + r, k) && k > |head|
    ensures NoBracket(r, k - |head|)
  {
    assert forall j :: 0 <= j < k - |head| ==> r[j] == (head + r)[|head| + j];
  }

  /** Up to its first bracket the result is the original text. */
  lemma {:induction false} ReplacingKeepsPrefix(s: string, k: nat)
    requires NoBracket(ReplaceRuns(s), k)
    ensures Agree(ReplaceRuns(s), s, k)
    decreases |s|
  {
    if s != "" && k > 0 {
      var m, head := Consumed(s), Emitted(s);
      var rest := s[m..];
      assert ReplaceRuns(s) == head + ReplaceRuns(rest) && (head == s[..m] || head == BASE64_REMOVED);
      hide ReplaceRuns, Emitted, Consumed, Agree;
      assert head[0] == ReplaceRuns(s)[0];
      assert s == head + rest;
      if k > m {
        NoBracketBehind(head, ReplaceRuns(rest), k);
        ReplacingKeepsPrefix(rest, k - m);
      }
      AgreeJoin(head, ReplaceRuns(rest), rest, k);
    }
  }

  /** A text that shares no first character with the placeholder and has no bracket does
      not come into being by replacing. */
  lemma {:induction false} ReplacingCreatesNothing(s: string, sub: string, i: nat)
    requires sub != "" && sub[0] !in BASE64_REMOVED && '[' !in sub
    requires At(ReplaceRuns(s), sub, i)
    ensures Contains(s, sub)
    decreases |s|
  {
    hide ReplaceRuns, Emitted, Consumed, At, Contains, BASE64_REMOVED;
    ReplacingNothing(sub, i);
    if s != "" {
      FirstMove(s);
      var front, head, rest := s[..Consumed(s)], Emitted(s), s[Consumed(s)..];
      if i >= |head| {
        AtBehind(head, ReplaceRuns(rest), sub, i);
        ReplacingCreatesNothing(rest, sub, i - |head|);
        ContainsBehind(front, rest, sub);
      } else {
        StartOfMatch(head, ReplaceRuns(rest), sub, i);
        StraddlesTheCut(head, rest, sub, i);
      }
    }
  }

  lemma ReplacingNothing(sub: string, i: nat)
    requires sub != ""
    ensures !At(ReplaceRuns(""), sub, i)
  {
  }

  lemma StartOfMatch(head: string, tail: string, sub: string, i: nat)
    requires sub != "" && i < |head| && At(head + tail, sub, i)
    ensures sub[0] in head
  {
    assert (head + tail)[i..i + |sub|][0] == head[i];
  }

  lemma AtBehind(head: string, tail: string, sub: string, i: nat)
    requires i >= |head| && At(head + tail, sub, i)
    ensures At(tail, sub, i - |head|)
  {
    assert tail[i - |head|..i - |head| + |sub|] == (head + tail)[i..i + |sub|];
  }

  lemma ContainsBehind(head: string, tail: string, sub: string)
    requires Contains(tail, sub)
    ensures Contains(head + tail, sub)
  {
    var j :| 0 <= j < |tail| && At(tail, sub, j);
    assert (head + tail)[|head| + j..|head| + j + |sub|] == tail[j..j + |sub|];
    assert At(head + tail, sub, |head| + j);
  }

  lemma StraddlesTheCut(head: string, rest: string, sub: string, i: nat)
    requires sub != "" && '[' !in sub && i < |head|
    requires At(head + ReplaceRuns(rest), sub, i)
    ensures Contains(head + rest, sub)
  {
    hide ReplaceRuns, At, Contains, Agree, NoBracket;
    var tail := ReplaceRuns(rest);
    var n := if i + |sub| > |head| then i + |sub| else |head|;
    if n > |head| {
      MatchTail(head, tail, sub, i);
      ReplacingKeepsPrefix(rest, n - |head|);
    }
    AgreeJoin(head, tail, rest, n);
    MatchInPrefix(head + tail, head + rest, n, sub, i);
  }

  lemma MatchTail(head: string, tail: string, sub: string, i: nat)
    requires i < |head| < i + |sub| && At(head + tail, sub, i) && '[' !in sub
    ensures NoBracket(tail, i + |sub| - |head|)
  {
    forall j | 0 <= j < i + |sub| - |head|
      ensures tail[j] != '['
    {
      assert tail[j] == (head + tail)[i..i + |sub|][|head| - i + j];
    }
  }

  lemma MatchInPrefix(r: string, s: string, n: nat, sub: string, i: nat)
    requires Agree(r, s, n) && sub != "" && i + |sub| <= n && At(r, sub, i)
    ensures Contains(s, sub)
  {
    assert s[i..i + |sub|] == r[i..i + |sub|];
    assert At(s, sub, i);
  }

  /** Every replacement leaves a bracket behind. */
  lemma {:induction false} ChangeLeavesBracket(s: string)
    requires '[' !in ReplaceRuns(s)
    ensures ReplaceRuns(s) == s
    decreases |s|
  {
    hide Emitted, Consumed;
    if s != "" {
      var tail := ReplaceRuns(s[Consumed(s)..]);
      assert (Emitted(s) + tail)[0] == Emitted(s)[0];
      ChangeLeavesBracket(s[Consumed(s)..]);
    }
  }

  lemma WholeBase64HasNoBracket(s: string)
    requires WholeBase64(s)
    ensures '[' !in s
  {
    forall i | 0 <= i < |s|
      ensures s[i] != '['
    {
      if i >= Run(s) {
        assert s[Run(s)..][i - Run(s)] == '=';
      }
    }
  }

  lemma ReplacingCreatesNoWhole(s: string)
    requires WholeBase64(ReplaceRuns(s))
    ensures ReplaceRuns(s) == s
  {
    WholeBase64HasNoBracket(ReplaceRuns(s));
    hide WholeBase64, ReplaceRuns;
    ChangeLeavesBracket(s);
  }

  lemma ReplacingCreatesNoDataUrl(s: string)
    requires DATA_PREFIX <= ReplaceRuns(s) && Contains(ReplaceRuns(s), BASE64_MARK)
    ensures DATA_PREFIX <= s && Contains(s, BASE64_MARK)
  {
    hide ReplaceRuns;
    var r := ReplaceRuns(s);
    assert r[..5] == DATA_PREFIX;
    assert NoBracket(r, 5);
    ReplacingKeepsPrefix(s, 5);
    var i :| 0 <= i < |r| && At(r, BASE64_MARK, i);
    ReplacingCreatesNothing(s, BASE64_MARK, i);
  }

  lemma ReplacingCreatesNoPayload(s: string)
    requires |s| >= LONG_RUN && !IsBase64Payload(s)
    ensures !IsBase64Payload(ReplaceRuns(s))
  {
    hide ReplaceRuns, WholeBase64, Contains;
    if WholeBase64(ReplaceRuns(s)) { ReplacingCreatesNoWhole(s); }
    if DATA_PREFIX <= ReplaceRuns(s) && Contains(ReplaceRuns(s), BASE64_MARK) { ReplacingCreatesNoDataUrl(s); }
  }

  // ----- The contract of sanitizeString -----

  /** The output fits the budget and is charged in full, so the truncation at the end of
      sanitizeString never happens. */
  lemma OutputFits(value: string, remaining: nat)
    ensures |Cleaned(value, remaining)| <= remaining
    ensures SanitizeString(value, remaining) == (Cleaned(value, remaining), remaining - |Cleaned(value, remaining)|)
  {
    ReplacingShortens(Truncated(value, remaining));
  }

  /** No 512 consecutive characters of the output are all base64 characters. */
  lemma NoPayloadSurvives(value: string, remaining: nat, i: nat)
    requires i + LONG_RUN <= |SanitizeString(value, remaining).0|
    ensures exists k :: i <= k < i + LONG_RUN && !Base64(SanitizeString(value, remaining).0[k])
  {
    OutputFits(value, remaining);
    var out := Cleaned(value, remaining);
    var bounded := Truncated(value, remaining);
    ReplacedHasNoLongRun(bounded);
    assert !IsBase64Payload(bounded) && out == ReplaceRuns(bounded);
    assert Run(out[i..]) < LONG_RUN;
    assert out[i..][Run(out[i..])] == out[i + Run(out[i..])];
  }

  /** Sanitizing the output again under the same budget changes nothing. */
  lemma SanitizedIsFixed(value: string, remaining: nat)
    ensures SanitizeString(SanitizeString(value, remaining).0, remaining) == SanitizeString(value, remaining)
  {
    hide SanitizeString, Cleaned;
    OutputFits(value, remaining);
    var out := Cleaned(value, remaining);
    OutputFits(out, remaining);
    CleanedIsFixed(value, remaining);
  }

  lemma CleanedIsFixed(value: string, remaining: nat)
    ensures Cleaned(Cleaned(value, remaining), remaining) == Cleaned(value, remaining)
  {
    var bounded := Truncated(value, remaining);
    var out := Cleaned(value, remaining);
    hide IsBase64Payload, ReplaceRuns;
    ReplacingShortens(bounded);
    if IsBase64Payload(bounded) {
      PlaceholderIsNoPayload(bounded);
    } else if |bounded| >= LONG_RUN {
      ReplacingCreatesNoPayload(bounded);
      ReplacedHasNoLongRun(bounded);
      NothingToReplace(out);
    }
  }

  lemma PlaceholderIsNoPayload(s: string)
    requires IsBase64Payload(s)
    ensures !IsBase64Payload(BASE64_REMOVED) && |s| >= |BASE64_REMOVED|
  {
  }

  /** A text comes out unchanged exactly when it fits, is no payload and has no long run. */
  lemma KeptExactly(value: string, remaining: nat)
    ensures SanitizeString(value, remaining).0 == value <==>
      |value| <= remaining && !IsBase64Payload(value) && NoLongRun(value)
  {
    hide IsBase64Payload, ReplaceRuns, NoLongRun;
    OutputFits(value, remaining);
    if |value| <= remaining {
      if IsBase64Payload(value) {
        PlaceholderIsNoPayload(value);
      } else if |value| >= LONG_RUN {
        ReplacedHasNoLongRun(value);
        if NoLongRun(value) { NothingToReplace(value); }
      } else {
        ShortHasNoLongRun(value);
      }
    }
  }

  lemma ShortHasNoLongRun(s: string)
    requires |s| < LONG_RUN
    ensures NoLongRun(s)
  {
    hide Run;
  }

  // ----- Where a text may be taken apart -----

  lemma PaddingStops(a: string, y: string)
    requires a != "" && (y == "" || Base64(y[0]))
    ensures Padding(a + y) == Padding(a)
  {
    assert |a| > 1 ==> (a + y)[1] == a[1];
    assert y != "" ==> (a + y)[|a|] == y[0] != '=';
    assert (a + y)[0] == a[0];
  }

  lemma SamePieces(x: string, y: string)
    requires x != "" && !Base64(x[|x| - 1]) && (y == "" || Base64(y[0]))
    ensures Consumed(x + y) == Consumed(x) && Emitted(x + y) == Emitted(x)
  {
    RunAppend(x, y);
    var n, m := Run(x), Consumed(x);
    assert n < |x|;
    assert (x + y)[n..] == x[n..] + y;
    PaddingStops(x[n..], y);
    assert Consumed(x + y) == m;
    hide Run, Consumed;
    assert (x + y)[..m] == x[..m];
  }

  lemma TailOfSplit(x: string, y: string, m: nat)
    requires m <= |x| && (x == "" || !Base64(x[|x| - 1]))
    ensures (x + y)[m..] == x[m..] + y
    ensures x[m..] == "" || !Base64(x[m..][|x[m..]| - 1])
  {
    hide Base64;
  }

  lemma JoinInOrder(a: string, b: string, c: string)
    ensures a + (b + c) == (a + b) + c
  {
  }

  /** Replacing works on both sides of a place where a run starts independently. */
  lemma {:induction false} ReplacingSplits(x: string, y: string)
    requires x == "" || !Base64(x[|x| - 1])
    requires y == "" || Base64(y[0])
    ensures ReplaceRuns(x + y) == ReplaceRuns(x) + ReplaceRuns(y)
    decreases |x|
  {
    hide ReplaceRuns, Consumed, Emitted, Base64;
    if x == "" {
      assert x + y == y;
      NothingOfNothing();
      assert ReplaceRuns("") + ReplaceRuns(y) == ReplaceRuns(y);
    } else {
      var m, front := Consumed(x), Emitted(x);
      SamePieces(x, y);
      FirstMoveOnly(x);
      FirstMoveOnly(x + y);
      TailOfSplit(x, y, m);
      ReplacingSplits(x[m..], y);
      JoinInOrder(front, ReplaceRuns(x[m..]), ReplaceRuns(y));
    }
  }

  /** A long run goes, with the padding behind it, and nothing after that does. */
  lemma LongRunIsReplaced(run: string, after: string)
    requires |run| >= LONG_RUN && Run(run) == |run| && Run(after) == 0
    ensures ReplaceRuns(run + after) == BASE64_REMOVED + ReplaceRuns(after[Padding(after)..])
  {
    hide ReplaceRuns, Run, Padding;
    var s := run + after;
    RunAppend(run, after);
    assert s[|run|..] == after;
    assert Consumed(s) == |run| + Padding(after) && Emitted(s) == BASE64_REMOVED;
    FirstMove(s);
    assert s[Consumed(s)..] == after[Padding(after)..];
  }
}

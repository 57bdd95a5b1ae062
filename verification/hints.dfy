/** Removing the description suffixes of earlier releases (tools.go). */
module Hints {
  import opened Strings

  // The texts are cut so that each piece is short; concatenated they are the originals.
  const CALL_PURPOSE_1 := "Include telemetry.call_purpose with " + "a short description of this action. "
  const CALL_PURPOSE_2 := "Include telemetry.user_intent and " + "telemetry.user_frustration only on "
  const CALL_PURPOSE_3 := "the first tool call after each new " + "user message."
  const REASONING_1 := "On every call, pass " + "telemetry.agent_thinking with your "
    + "reasoning for this specific call. "
  const REASONING_2 := "Pass telemetry.user_intent only on " + "the first tool call after a new "
    + "user message."
  const REASONING_SENTENCE_1 := "Pass telemetry.agent_thinking on " + "every call, "
  const REASONING_SENTENCE_2 := "telemetry.user_intent " + "on the first call after each user " + "message."
  const RESTATEMENT := "Pass telemetry.user_intent with a " + "one-line restatement of the user's "
    + "most recent request"
  const RESTATEMENT_MORE := ", and telemetry.agent_thinking with " + "your reasoning for making this "
    + "specific call."
  const LEGACY_HINT := "Pass telemetry.intent with a " + "one-line user intent for analytics."
  const LAST_SENTENCE_1 := "Call request_capability before you " + "tell the user something "
  const LAST_SENTENCE_2 := "can't be done here or has to be " + "done elsewhere."
  const FIRST_SENTENCE := "If no tool can do what the user " + "asks, call request_capability."

  const HINTS: seq<string> := [
    CALL_PURPOSE_1 + CALL_PURPOSE_2 + CALL_PURPOSE_3,
    REASONING_1 + REASONING_2,
    REASONING_SENTENCE_1 + REASONING_SENTENCE_2,
    RESTATEMENT + RESTATEMENT_MORE,
    RESTATEMENT + ".",
    LEGACY_HINT
  ]

  const SENTENCES: seq<string> := [LAST_SENTENCE_1 + LAST_SENTENCE_2, FIRST_SENTENCE]

  function WithSentences(hint: string, sentences: seq<string>): seq<string> {
    if sentences == [] then [hint] else [hint + " " + sentences[0]] + WithSentences(hint, sentences[1..])
  }

  /** Each hint followed by each capability sentence, then the bare hint. */
  function SuffixesOf(hints: seq<string>, sentences: seq<string>): seq<string> {
    if hints == [] then [] else WithSentences("\n\n" + hints[0], sentences) + SuffixesOf(hints[1..], sentences)
  }

  const SUFFIXES: seq<string> := SuffixesOf(HINTS, SENTENCES)

  predicate OneLine(s: string) {
    forall i :: 0 <= i < |s| ==> s[i] != '\n'
  }

  /** The one property of the table that stripping depends on. */
  predicate Shaped(suffix: string) {
    |suffix| > 2 && suffix[0] == suffix[1] == '\n' && OneLine(suffix[2..])
  }

  predicate AllShaped(table: seq<string>) {
    forall i :: 0 <= i < |table| ==> Shaped(table[i])
  }

  ghost predicate Lines(texts: seq<string>) {
    forall i :: 0 <= i < |texts| ==> texts[i] != "" && OneLine(texts[i])
  }

  lemma CallPurpose1Line() ensures OneLine(CALL_PURPOSE_1) && CALL_PURPOSE_1 != "" {}
  lemma CallPurpose2Line() ensures OneLine(CALL_PURPOSE_2) && CALL_PURPOSE_2 != "" {}
  lemma CallPurpose3Line() ensures OneLine(CALL_PURPOSE_3) && CALL_PURPOSE_3 != "" {}
  lemma Reasoning1Line() ensures OneLine(REASONING_1) && REASONING_1 != "" {}
  lemma Reasoning2Line() ensures OneLine(REASONING_2) && REASONING_2 != "" {}
  lemma ReasoningSentence1Line() ensures OneLine(REASONING_SENTENCE_1) && REASONING_SENTENCE_1 != "" {}
  lemma ReasoningSentence2Line() ensures OneLine(REASONING_SENTENCE_2) && REASONING_SENTENCE_2 != "" {}
  lemma RestatementLine() ensures OneLine(RESTATEMENT) && RESTATEMENT != "" {}
  lemma RestatementMoreLine() ensures OneLine(RESTATEMENT_MORE) && RESTATEMENT_MORE != "" {}
  lemma LegacyHintLine() ensures OneLine(LEGACY_HINT) && LEGACY_HINT != "" {}
  lemma LastSentence1Line() ensures OneLine(LAST_SENTENCE_1) && LAST_SENTENCE_1 != "" {}
  lemma LastSentence2Line() ensures OneLine(LAST_SENTENCE_2) && LAST_SENTENCE_2 != "" {}
  lemma FirstSentenceLine() ensures OneLine(FIRST_SENTENCE) && FIRST_SENTENCE != "" {}

  lemma {:induction false} WithSentencesShaped(hint: string, sentences: seq<string>)
    requires Shaped(hint) && Lines(sentences)
    ensures AllShaped(WithSentences(hint, sentences))
  {
    if sentences != [] {
      WithSentencesShaped(hint, sentences[1..]);
      assert (hint + " " + sentences[0])[2..] == hint[2..] + " " + sentences[0];
    }
  }

  lemma {:induction false} SuffixesShaped(hints: seq<string>, sentences: seq<string>)
    requires Lines(hints) && Lines(sentences)
    ensures AllShaped(SuffixesOf(hints, sentences))
  {
    if hints != [] {
      SuffixesShaped(hints[1..], sentences);
      assert ("\n\n" + hints[0])[2..] == hints[0];
      WithSentencesShaped("\n\n" + hints[0], sentences);
    }
  }

  lemma TableIsShaped()
    ensures AllShaped(SUFFIXES)
  {
    CallPurpose1Line();
    CallPurpose2Line();
    CallPurpose3Line();
    Reasoning1Line();
    Reasoning2Line();
    ReasoningSentence1Line();
    ReasoningSentence2Line();
    RestatementLine();
    RestatementMoreLine();
    LegacyHintLine();
    LastSentence1Line();
    LastSentence2Line();
    FirstSentenceLine();
    hide CALL_PURPOSE_1, CALL_PURPOSE_2, CALL_PURPOSE_3, REASONING_1, REASONING_2;
    hide REASONING_SENTENCE_1, REASONING_SENTENCE_2, RESTATEMENT, RESTATEMENT_MORE;
    hide LEGACY_HINT, LAST_SENTENCE_1, LAST_SENTENCE_2, FIRST_SENTENCE;
    SuffixesShaped(HINTS, SENTENCES);
  }

  /** The hint on a paragraph of its own, bare or with one of the sentences behind it. */
  ghost predicate IsHintWith(s: string, hint: string, sentences: seq<string>) {
    || s == "\n\n" + hint
    || exists j :: 0 <= j < |sentences| && s == "\n\n" + hint + " " + sentences[j]
  }

  lemma {:induction false} WithSentencesHolds(hint: string, sentences: seq<string>, s: string)
    ensures s in WithSentences("\n\n" + hint, sentences) <==> IsHintWith(s, hint, sentences)
  {
    if sentences != [] {
      WithSentencesHolds(hint, sentences[1..], s);
      assert forall j :: 0 <= j < |sentences[1..]| ==> sentences[1..][j] == sentences[j + 1];
      assert forall j :: 0 < j < |sentences| ==> sentences[j] == sentences[1..][j - 1];
    }
  }

  /** The table holds every hint, bare and with each sentence, and nothing else. */
  lemma {:induction false} TableHoldsExactly(hints: seq<string>, sentences: seq<string>, s: string)
    ensures s in SuffixesOf(hints, sentences) <==> exists i :: 0 <= i < |hints| && IsHintWith(s, hints[i], sentences)
  {
    hide IsHintWith, WithSentences;
    if hints != [] {
      WithSentencesHolds(hints[0], sentences, s);
      TableHoldsExactly(hints[1..], sentences, s);
      assert forall i :: 0 <= i < |hints[1..]| ==> hints[1..][i] == hints[i + 1];
      assert forall i :: 0 < i < |hints| ==> hints[i] == hints[1..][i - 1];
    }
  }

  // ----- Stripping -----

  predicate IsNewline(c: char) { c == '\n' }

  function Bared(suffix: string): string {
    TrimLeft(suffix, IsNewline)
  }

  datatype Match = Bare | Cut(suffix: string) | NoMatch

  /** One pass over the table: the first entry that is the whole description without its
      leading newlines, or that the description ends in. */
  function Scan(table: seq<string>, d: string): (m: Match)
    ensures m.Cut? ==> m.suffix in table && EndsWith(d, m.suffix)
  {
    if table == [] then NoMatch
    else if d == Bared(table[0]) then Bare
    else if EndsWith(d, table[0]) then Cut(table[0])
    else Scan(table[1..], d)
  }

  function Strip(table: seq<string>, d: string): string
    requires AllShaped(table)
    decreases |d|
  {
    match Scan(table, d)
    case Bare => ""
    case Cut(suffix) => Strip(table, d[..|d| - |suffix|])
    case NoMatch => d
  }

  method StripSuffixes(table: seq<string>, description: string) returns (r: string)
    requires AllShaped(table)
    ensures r == Strip(table, description)
  {
    hide EndsWith, Bared;
    var d := description;
    while true
      invariant Strip(table, d) == Strip(table, description)
      decreases |d|
    {
      var i := 0;
      while i < |table|
        invariant 0 <= i <= |table| && Scan(table, d) == Scan(table[i..], d)
      {
        if d == Bared(table[i]) {
          return "";
        }
        if EndsWith(d, table[i]) {
          break;
        }
        i := i + 1;
      }
      if i == |table| {
        return d;
      }
      assert Scan(table, d) == Cut(table[i]);
      CutShortens(d, table[i]);
      d := d[..|d| - |table[i]|];
    }
  }

  lemma CutShortens(d: string, suffix: string)
    requires Shaped(suffix) && EndsWith(d, suffix)
    ensures 0 < |suffix| <= |d|
  {
  }

  method StripLegacyTelemetryHint(description: string) returns (r: string)
    ensures AllShaped(SUFFIXES) && r == Strip(SUFFIXES, description)
  {
    TableIsShaped();
    r := StripSuffixes(SUFFIXES, description);
  }

  lemma BaredShaped(suffix: string)
    requires Shaped(suffix)
    ensures Bared(suffix) == suffix[2..] && OneLine(Bared(suffix)) && Bared(suffix) != ""
  {
    hide Bared;
    var body, tail := suffix[2..], suffix[1..];
    assert body != "" && body[0] != '\n';
    assert tail[1..] == body && tail[0] == '\n';
    hide OneLine;
    TrimLeftStops(body);
    TrimLeftGoesOn(tail);
    TrimLeftGoesOn(suffix);
  }

  lemma TrimLeftStops(s: string)
    requires s != "" && s[0] != '\n'
    ensures Bared(s) == s
  {
  }

  lemma TrimLeftGoesOn(s: string)
    requires s != "" && s[0] == '\n'
    ensures Bared(s) == Bared(s[1..])
  {
  }

  lemma EmptyIsNormal(table: seq<string>)
    requires AllShaped(table)
    ensures forall i :: 0 <= i < |table| ==> !EndsWith("", table[i]) && "" != Bared(table[i])
  {
    hide Bared;
    forall i | 0 <= i < |table|
      ensures Bared(table[i]) != "" && !EndsWith("", table[i])
    {
      BaredShaped(table[i]);
    }
  }

  /** The result is a prefix of the description, ends in no suffix and is no bare hint. */
  lemma {:induction false} StripIsNormal(table: seq<string>, d: string)
    requires AllShaped(table)
    ensures Strip(table, d) <= d
    ensures forall i :: 0 <= i < |table| ==> !EndsWith(Strip(table, d), table[i]) && Strip(table, d) != Bared(table[i])
    decreases |d|
  {
    hide EndsWith, Bared;
    match Scan(table, d)
    case Bare => EmptyIsNormal(table);
    case Cut(suffix) =>
      CutShortens(d, suffix);
      StripIsNormal(table, d[..|d| - |suffix|]);
    case NoMatch => ScanFailsEverywhere(table, d);
  }

  lemma {:induction false} ScanFailsEverywhere(table: seq<string>, d: string)
    requires Scan(table, d).NoMatch?
    ensures forall i :: 0 <= i < |table| ==> !EndsWith(d, table[i]) && d != Bared(table[i])
  {
    hide EndsWith, Bared;
    if table != [] { ScanFailsEverywhere(table[1..], d); }
  }

  lemma {:induction false} ScanFinds(table: seq<string>, d: string, suffix: string)
    requires suffix in table && EndsWith(d, suffix)
    requires forall i :: 0 <= i < |table| ==> d != Bared(table[i]) && (EndsWith(d, table[i]) ==> table[i] == suffix)
    ensures Scan(table, d) == Cut(suffix)
  {
    hide EndsWith, Bared;
    if table[0] != suffix {
      assert table == [table[0]] + table[1..];
      ScanFinds(table[1..], d, suffix);
    }
  }

  lemma StripIsIdempotent(table: seq<string>, d: string)
    requires AllShaped(table)
    ensures Strip(table, Strip(table, d)) == Strip(table, d)
  {
    StripIsNormal(table, d);
  }

  /** Two shaped suffixes of one text are the same: the double newline is in one place. */
  lemma OneSuffixFits(d: string, s: string, t: string)
    requires Shaped(s) && Shaped(t) && EndsWith(d, s) && EndsWith(d, t)
    ensures s == t
  {
    if |s| < |t| {
      LongerSuffix(d, s, t);
    } else if |t| < |s| {
      LongerSuffix(d, t, s);
    }
  }

  lemma LongerSuffix(d: string, s: string, t: string)
    requires Shaped(s) && Shaped(t) && |s| < |t| && EndsWith(d, t)
    ensures !EndsWith(d, s)
  {
    var k := |t| - |s| + 1;
    assert t[2..][k - 2] == t[k];
    assert d[|d| - |s| + 1] == d[|d| - |t|..][k];
    assert |d| >= |s| && d[|d| - |s|..][1] != '\n';
  }

  lemma StripOne(table: seq<string>, x: string, suffix: string)
    requires AllShaped(table) && suffix in table
    ensures Strip(table, x + suffix) == Strip(table, x)
  {
    var d := x + suffix;
    assert EndsWith(d, suffix);
    assert d[|x|] == '\n';
    forall i | 0 <= i < |table|
      ensures d != Bared(table[i]) && (EndsWith(d, table[i]) ==> table[i] == suffix)
    {
      BaredShaped(table[i]);
      if EndsWith(d, table[i]) { OneSuffixFits(d, suffix, table[i]); }
    }
    ScanFinds(table, d, suffix);
    assert d[..|d| - |suffix|] == x;
  }

  function Stacked(x: string, suffixes: seq<string>): string {
    if suffixes == [] then x else Stacked(x, suffixes[..|suffixes| - 1]) + suffixes[|suffixes| - 1]
  }

  /** Any stack of suffixes, in any order, comes off completely. */
  lemma {:induction false} StackIsRemoved(table: seq<string>, x: string, suffixes: seq<string>)
    requires AllShaped(table) && forall s :: s in suffixes ==> s in table
    ensures Strip(table, Stacked(x, suffixes)) == Strip(table, x)
  {
    if suffixes != [] {
      var front := suffixes[..|suffixes| - 1];
      StripOne(table, Stacked(x, front), suffixes[|suffixes| - 1]);
      StackIsRemoved(table, x, front);
    }
  }

  /** Nothing else comes off: what was removed is a stack of suffixes, and below it, if the
      result is empty, a bare hint may have gone. */
  lemma {:induction false} StripRemovesOnlyHints(table: seq<string>, d: string) returns (stack: seq<string>, bottom: string)
    requires AllShaped(table)
    ensures forall s :: s in stack ==> s in table
    ensures d == Stacked(bottom, stack)
    ensures bottom == Strip(table, d) || (Strip(table, d) == "" && exists s :: s in table && bottom == Bared(s))
    decreases |d|
  {
    hide EndsWith, Bared;
    match Scan(table, d)
    case Bare =>
      BareIsBared(table, d);
      stack, bottom := [], d;
    case Cut(suffix) =>
      CutShortens(d, suffix);
      var front := d[..|d| - |suffix|];
      stack, bottom := StripRemovesOnlyHints(table, front);
      CutIsStacked(d, suffix);
      assert (stack + [suffix])[..|stack|] == stack;
      stack := stack + [suffix];
    case NoMatch => stack, bottom := [], d;
  }

  lemma {:induction false} BareIsBared(table: seq<string>, d: string)
    requires Scan(table, d).Bare?
    ensures exists s :: s in table && d == Bared(s)
  {
    hide EndsWith, Bared;
    if d == Bared(table[0]) {
      assert table[0] in table;
    } else {
      BareIsBared(table[1..], d);
    }
  }

  lemma CutIsStacked(d: string, suffix: string)
    requires EndsWith(d, suffix)
    ensures d == d[..|d| - |suffix|] + suffix
  {
  }
}

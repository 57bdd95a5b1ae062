/** Which texts the sanitizer replaces, said by what they look like. */
module SanitizePayloads {
  import opened Utf8
  import opened SanitizeText

  /** The alphabet of base64 and of its URL-safe variant. */
  predicate InAlphabet(c: char) {
    || c in "ABCDEFGHIJKLMNOPQRSTUVWXYZ"
    || c in "abcdefghijklmnopqrstuvwxyz"
    || c in "0123456789+/-_"
  }

  ghost predicate AllInAlphabet(s: string) {
    forall i :: 0 <= i < |s| ==> InAlphabet(s[i])
  }

  /** A data URL of base64 content, at least 64 bytes long. */
  ghost predicate IsDataUrl(s: string) {
    && |s| >= 64
    && (exists rest :: s == "data:" + rest)
    && (exists head, content :: s == head + ";base64," + content)
  }

  ghost predicate IsEncoded(s: string, run: string) {
    s == run || s == run + "=" || s == run + "=="
  }

  /** Nothing but base64 characters and padding, at least 512 bytes long. */
  ghost predicate IsWholePayload(s: string) {
    |s| >= 512 && exists run :: run != "" && AllInAlphabet(run) && IsEncoded(s, run)
  }

  ghost predicate LooksLikePayload(s: string) {
    IsDataUrl(s) || IsWholePayload(s)
  }

  ghost predicate LongRunFrom(s: string, i: nat) {
    i + 512 <= |s| && AllInAlphabet(s[i..i + 512])
  }

  /** 512 base64 characters in a row. */
  ghost predicate HasLongRun(s: string) {
    exists i: nat :: LongRunFrom(s, i)
  }

  // ----- The alphabet -----

  lemma AlphabetExactly(c: char)
    ensures Base64(c) <==> InAlphabet(c)
  {
  }

  lemma AlphabetRuns(s: string)
    ensures AllInAlphabet(s) <==> forall i :: 0 <= i < |s| ==> Base64(s[i])
  {
    hide Base64, InAlphabet;
    forall c: char
      ensures Base64(c) <==> InAlphabet(c)
    {
      AlphabetExactly(c);
    }
  }

  lemma {:induction false} WholeRun(s: string)
    requires forall i :: 0 <= i < |s| ==> Base64(s[i])
    ensures Run(s) == |s|
  {
    hide Base64;
    if s != "" { WholeRun(s[1..]); }
  }

  // ----- The two kinds of payload -----

  lemma MarkExactly(s: string)
    ensures Contains(s, ";base64,") <==> exists head, content :: s == head + ";base64," + content
  {
    if i :| 0 <= i < |s| && At(s, ";base64,", i) {
      assert s == s[..i] + ";base64," + s[i + 8..];
    }
    if head, content :| s == head + ";base64," + content {
      assert At(s, ";base64,", |head|);
    }
  }

  lemma DataUrlExactly(s: string)
    ensures IsDataUrl(s) <==> |s| >= 64 && "data:" <= s && Contains(s, ";base64,")
  {
    hide Contains;
    MarkExactly(s);
    if "data:" <= s { assert s == "data:" + s[5..]; }
  }

  lemma PaddingIsWhole(pad: string)
    ensures Padding(pad) == |pad| <==> pad == "" || pad == "=" || pad == "=="
  {
  }

  lemma EncodedIsWhole(s: string, run: string)
    requires run != "" && AllInAlphabet(run) && IsEncoded(s, run)
    ensures WholeBase64(s)
  {
    var pad := s[|run|..];
    assert pad == "" || pad == "=" || pad == "==";
    assert s == run + pad;
    hide IsEncoded, InAlphabet;
    AlphabetRuns(run);
    WholeRun(run);
    RunAppend(run, pad);
    PaddingIsWhole(pad);
  }

  lemma WholeIsEncoded(s: string)
    requires WholeBase64(s)
    ensures exists run :: run != "" && AllInAlphabet(run) && IsEncoded(s, run)
  {
    var run, pad := s[..Run(s)], s[Run(s)..];
    assert s == run + pad && forall i :: 0 <= i < |run| ==> Base64(run[i]);
    hide Run, Base64, InAlphabet;
    AlphabetRuns(run);
    PaddingIsWhole(pad);
    assert s == run || s == run + "=" || s == run + "==";
  }

  /** The two patterns match what they are meant to match. */
  lemma PayloadExactly(s: string)
    ensures IsBase64Payload(s) <==> LooksLikePayload(s)
  {
    DataUrlExactly(s);
    hide IsDataUrl, Contains, IsEncoded, AllInAlphabet;
    if WholeBase64(s) {
      WholeIsEncoded(s);
    } else if run :| run != "" && AllInAlphabet(run) && IsEncoded(s, run) {
      hide WholeBase64;
      EncodedIsWhole(s, run);
    }
  }

  lemma LongRunAt(s: string, i: nat)
    requires i < |s|
    ensures Run(s[i..]) >= 512 <==> LongRunFrom(s, i)
  {
    hide Base64, InAlphabet;
    if i + 512 <= |s| {
      var window, tail := s[i..i + 512], s[i + 512..];
      assert s[i..] == window + tail;
      AlphabetRuns(window);
      if AllInAlphabet(window) { WholeRun(window); }
      RunAppend(window, tail);
      if Run(s[i..]) >= 512 {
        assert forall k :: 0 <= k < 512 ==> window[k] == s[i..][k];
      }
    }
  }

  lemma LongRunExactly(s: string)
    ensures NoLongRun(s) <==> !HasLongRun(s)
  {
    forall i | 0 <= i < |s|
      ensures Run(s[i..]) >= 512 <==> LongRunFrom(s, i)
    {
      LongRunAt(s, i);
    }
    assert forall i: nat :: LongRunFrom(s, i) ==> i < |s|;
    hide Run, LongRunFrom;
  }

  // ----- What becomes of a text -----

  /** A text is cut to the budget first. What is left is replaced as a whole if it looks like a
      payload, and kept as it is exactly if it does not and has no long run either. */
  lemma TextDecides(value: string, remaining: nat)
    ensures var text, out := Truncated(value, remaining), SanitizeString(value, remaining).0;
      && (LooksLikePayload(text) ==> out == "[base64 removed]")
      && (out == text <==> !LooksLikePayload(text) && !HasLongRun(text))
  {
    var text := Truncated(value, remaining);
    SameAsTruncated(value, remaining);
    hide SanitizeString, Truncated, LooksLikePayload, HasLongRun, IsBase64Payload, NoLongRun;
    PayloadExactly(text);
    LongRunExactly(text);
    KeptExactly(text, remaining);
    if IsBase64Payload(text) { PayloadGoes(text, remaining); }
  }

  lemma SameAsTruncated(value: string, remaining: nat)
    ensures SanitizeString(Truncated(value, remaining), remaining) == SanitizeString(value, remaining)
  {
    hide IsBase64Payload, ReplaceRuns;
  }

  lemma PayloadGoes(text: string, remaining: nat)
    requires |text| <= remaining && IsBase64Payload(text)
    ensures SanitizeString(text, remaining).0 == "[base64 removed]"
  {
    PlaceholderIsNoPayload(text);
    OutputFits(text, remaining);
    hide IsBase64Payload;
  }

  /** A single long run goes with its padding, and the text around it stays. */
  lemma OneRunIsReplaced(before: string, run: string, pad: string, after: string, remaining: nat)
    requires |run| >= 512 && AllInAlphabet(run) && (pad == "" || pad == "=" || pad == "==")
    requires before == "" || !InAlphabet(before[|before| - 1])
    requires after == "" || (!InAlphabet(after[0]) && (after[0] == '=' ==> pad == "=="))
    requires !HasLongRun(before) && !HasLongRun(after)
    requires !LooksLikePayload(before + (run + (pad + after))) && |before + (run + (pad + after))| <= remaining
    ensures SanitizeString(before + (run + (pad + after)), remaining).0 == before + ("[base64 removed]" + after)
  {
    var tail := pad + after;
    var text := before + (run + tail);
    hide LooksLikePayload, HasLongRun, AllInAlphabet, InAlphabet;
    PayloadExactly(text);
    LongRunExactly(before);
    LongRunExactly(after);
    NothingToReplace(before);
    NothingToReplace(after);
    Edges(before, run, pad, after);
    ReplacingSplits(before, run + tail);
    LongRunIsReplaced(run, tail);
    assert tail[|pad|..] == after;
    LongTextIsReplaced(text, remaining);
  }

  lemma Edges(before: string, run: string, pad: string, after: string)
    requires |run| >= 512 && AllInAlphabet(run) && (pad == "" || pad == "=" || pad == "==")
    requires before == "" || !InAlphabet(before[|before| - 1])
    requires after == "" || (!InAlphabet(after[0]) && (after[0] == '=' ==> pad == "=="))
    ensures before == "" || !Base64(before[|before| - 1])
    ensures Run(run) == |run| && Base64((run + (pad + after))[0])
    ensures Run(pad + after) == 0 && Padding(pad + after) == |pad|
  {
    AlphabetRuns(run);
    WholeRun(run);
    if before != "" { AlphabetExactly(before[|before| - 1]); }
    if after != "" { AlphabetExactly(after[0]); }
    hide InAlphabet, AllInAlphabet;
    if pad == "" { assert pad + after == after; }
  }

  lemma LongTextIsReplaced(text: string, remaining: nat)
    requires 512 <= |text| <= remaining && !IsBase64Payload(text)
    ensures SanitizeString(text, remaining).0 == ReplaceRuns(text)
  {
    OutputFits(text, remaining);
    hide IsBase64Payload, ReplaceRuns;
  }
}

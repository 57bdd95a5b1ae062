/** The parts of a session id (stateless_http.go): slugs and UUIDs. */
module SessionParts {
  import opened Strings

  // ----- Slugs -----

  predicate IsDash(c: char) { c == '-' }

  const MAX_SLUG: nat := 48
  const ANONYMOUS := "unknown"

  predicate IsPartChar(c: char) {
    'A' <= c <= 'Z' || 'a' <= c <= 'z' || '0' <= c <= '9' || c == '.' || c == '-'
  }

  predicate AllPartChars(s: string) {
    forall c :: c in s ==> IsPartChar(c)
  }

  /** What a slug that is not a fallback looks like. */
  predicate IsSlug(s: string) {
    && 1 <= |s| <= MAX_SLUG && AllPartChars(s)
    && s[0] != '-' && s[|s| - 1] != '-'
  }

  function Extend(out: string, c: char): string {
    if IsPartChar(c) then out + [c]
    else if out != "" && out[|out| - 1] != '-' then out + "-"
    else out
  }

  /** Every stretch of other characters becomes one dash; none at the start, none after a dash. */
  function Collapse(s: string): string {
    if s == "" then "" else Extend(Collapse(s[..|s| - 1]), s[|s| - 1])
  }

  function Slug(value: string, fallback: string): string {
    var collapsed := Collapse(Trim(value, IsSpace));
    var slug := Trim(if |collapsed| <= MAX_SLUG then collapsed else collapsed[..MAX_SLUG], IsDash);
    if slug == "" then fallback else slug
  }

  lemma {:induction false} CollapseGrows(s: string, i: nat)
    requires i <= |s|
    ensures Collapse(s[..i]) <= Collapse(s)
    decreases |s|
  {
    if i < |s| {
      assert s[..|s| - 1][..i] == s[..i];
      CollapseGrows(s[..|s| - 1], i);
      assert Collapse(s[..|s| - 1]) <= Collapse(s);
    } else {
      assert s[..i] == s;
    }
  }

  lemma CollapseOfNothing(s: string)
    ensures Collapse(s[..0]) == ""
  {
    assert s[..0] == "";
  }

  lemma CollapseNext(s: string, i: nat)
    requires i < |s|
    ensures Collapse(s[..i + 1]) == Extend(Collapse(s[..i]), s[i])
  {
    var longer := s[..i + 1];
    assert longer != "" && longer[..|longer| - 1] == s[..i] && longer[|longer| - 1] == s[i];
  }

  /** The source's loop: one pass, a flag for the last dash, an early stop. */
  method SlugPart(value: string, fallback: string) returns (slug: string)
    ensures slug == Slug(value, fallback)
  {
    hide Trim, IsSpace, IsPartChar, Collapse;
    var v := Trim(value, IsSpace);
    var out, lastDash, i := "", false, 0;
    CollapseOfNothing(v);
    while i < |v|
      invariant 0 <= i <= |v| && out == Collapse(v[..i]) && |out| < MAX_SLUG
      invariant lastDash == (out != "" && out[|out| - 1] == '-')
    {
      CollapseNext(v, i);
      if IsPartChar(v[i]) {
        out := out + [v[i]];
        lastDash := v[i] == '-';
      } else if out != "" && !lastDash {
        out := out + "-";
        lastDash := true;
      }
      i := i + 1;
      if |out| >= MAX_SLUG {
        break;
      }
    }
    assert v[..|v|] == v;
    CollapseGrows(v, i);
    assert out == Collapse(v[..i]);
    ghost var collapsed := Collapse(v);
    assert out == if |collapsed| <= MAX_SLUG then collapsed else collapsed[..MAX_SLUG];
    slug := Trim(out, IsDash);
    if slug == "" {
      slug := fallback;
    }
  }

  lemma {:induction false} CollapseIsAllowed(s: string)
    ensures AllPartChars(Collapse(s))
  {
    if s != "" { CollapseIsAllowed(s[..|s| - 1]); }
  }

  lemma {:induction false} CollapseKeepsAllowed(s: string)
    requires AllPartChars(s)
    ensures Collapse(s) == s
  {
    hide IsPartChar;
    if s != "" {
      var n := |s| - 1;
      assert s[n] in s && s == s[..n] + [s[n]];
      CollapseKeepsAllowed(s[..n]);
    }
  }

  lemma SlugShape(value: string, fallback: string)
    ensures var r := Slug(value, fallback); r == fallback || IsSlug(r)
  {
    hide Trim, IsSpace, IsPartChar, Collapse;
    CollapseIsAllowed(Trim(value, IsSpace));
  }

  lemma PartCharIsNoSpace(c: char)
    requires IsPartChar(c)
    ensures !IsSpace(c)
  {
  }

  lemma SlugKeepsSlug(s: string, fallback: string)
    requires IsSlug(s)
    ensures Slug(s, fallback) == s
  {
    hide Trim, IsSpace, Collapse;
    assert s[0] in s && s[|s| - 1] in s;
    PartCharIsNoSpace(s[0]);
    PartCharIsNoSpace(s[|s| - 1]);
    TrimKeeps(s, IsSpace);
    TrimKeeps(s, IsDash);
    CollapseKeepsAllowed(s);
  }

  /** Slugging a slug changes nothing, the fallback included when it is "" or a slug. */
  lemma SlugIsIdempotent(value: string, fallback: string)
    requires fallback == "" || IsSlug(fallback)
    ensures var r := Slug(value, fallback);
      && Slug(r, fallback) == r
      && |r| <= MAX_SLUG && AllPartChars(r)
  {
    SlugShape(value, fallback);
    var r := Slug(value, fallback);
    if r != "" { SlugKeepsSlug(r, fallback); }
  }

  lemma {:induction false} CollapseAppends(a: string, back: string)
    requires AllPartChars(back)
    ensures Collapse(a + back) == Collapse(a) + back
    decreases |back|
  {
    hide IsPartChar;
    if back == "" {
      assert a + back == a;
    } else {
      var m := |back| - 1;
      assert (a + back)[..|a| + m] == a + back[..m] && back[m] in back;
      CollapseAppends(a, back[..m]);
      assert Collapse(a) + back == Collapse(a) + back[..m] + [back[m]];
    }
  }

  lemma CollapseOne(a: string, c: char)
    ensures Collapse(a + [c]) == Extend(Collapse(a), c)
  {
    assert (a + [c])[..|a|] == a;
  }

  lemma LastOfStretch(front: string, stretch: string)
    requires stretch != "" && forall c :: c in stretch ==> !IsPartChar(c)
    ensures var m := |stretch| - 1;
      && front + stretch == (front + stretch[..m]) + [stretch[m]]
      && !IsPartChar(stretch[m]) && forall c :: c in stretch[..m] ==> !IsPartChar(c)
  {
    hide IsPartChar;
  }

  lemma {:induction false} OneDash(front: string, stretch: string)
    requires AllPartChars(front) && front != "" && front[|front| - 1] != '-'
    requires stretch != "" && forall c :: c in stretch ==> !IsPartChar(c)
    ensures Collapse(front + stretch) == front + "-"
    decreases |stretch|
  {
    hide IsPartChar, Collapse, AllPartChars;
    var m := |stretch| - 1;
    LastOfStretch(front, stretch);
    CollapseOne(front + stretch[..m], stretch[m]);
    if m == 0 {
      assert front + stretch[..m] == front;
      CollapseKeepsAllowed(front);
    } else {
      OneDash(front, stretch[..m]);
    }
  }

  /** A stretch of other characters inside becomes exactly one dash. */
  lemma StretchBecomesDash(front: string, stretch: string, back: string)
    requires AllPartChars(front) && front != "" && front[|front| - 1] != '-'
    requires stretch != "" && forall c :: c in stretch ==> !IsPartChar(c)
    requires AllPartChars(back)
    ensures Collapse(front + stretch + back) == front + "-" + back
  {
    hide AllPartChars, IsPartChar, Collapse;
    OneDash(front, stretch);
    CollapseAppends(front + stretch, back);
  }

  lemma {:induction false} NoMoreDashes(front: string, stretch: string)
    requires AllPartChars(front) && (front == "" || front[|front| - 1] == '-')
    requires forall c :: c in stretch ==> !IsPartChar(c)
    ensures Collapse(front + stretch) == front
    decreases |stretch|
  {
    hide IsPartChar, Collapse, AllPartChars;
    if stretch == "" {
      assert front + stretch == front;
      CollapseKeepsAllowed(front);
    } else {
      var m := |stretch| - 1;
      LastOfStretch(front, stretch);
      CollapseOne(front + stretch[..m], stretch[m]);
      NoMoreDashes(front, stretch[..m]);
    }
  }

  /** A stretch at the start, or behind a dash, leaves nothing. */
  lemma StretchVanishes(front: string, stretch: string, back: string)
    requires AllPartChars(front) && (front == "" || front[|front| - 1] == '-')
    requires forall c :: c in stretch ==> !IsPartChar(c)
    requires AllPartChars(back)
    ensures Collapse(front + stretch + back) == front + back
  {
    hide AllPartChars, IsPartChar, Collapse;
    NoMoreDashes(front, stretch);
    CollapseAppends(front + stretch, back);
  }

  /** A text can be collapsed piece by piece from the left: with the two laws for one stretch
      this fixes what becomes of every text. */
  lemma {:induction false} CollapseAbsorbs(a: string, b: string)
    ensures Collapse(a + b) == Collapse(Collapse(a) + b)
    decreases |b|
  {
    if b == "" {
      assert a + b == a && Collapse(a) + b == Collapse(a);
      CollapseIsAllowed(a);
      CollapseKeepsAllowed(Collapse(a));
    } else {
      var n := |b| - 1;
      assert (a + b)[..|a| + n] == a + b[..n];
      assert (Collapse(a) + b)[..|Collapse(a)| + n] == Collapse(a) + b[..n];
      CollapseAbsorbs(a, b[..n]);
    }
  }

  lemma EndsAreNoSpace(s: string)
    requires AllPartChars(s) && s != ""
    ensures !IsSpace(s[0]) && !IsSpace(s[|s| - 1])
  {
    assert s[0] in s && s[|s| - 1] in s;
    PartCharIsNoSpace(s[0]);
    PartCharIsNoSpace(s[|s| - 1]);
  }

  lemma SlugOfTrimmed(value: string, name: string, fallback: string)
    requires Trim(value, IsSpace) == name && Collapse(name) == name
    ensures Slug(value, fallback) ==
      var slug := Trim(if |name| <= 48 then name else name[..48], IsDash);
      if slug == "" then fallback else slug
  {
    hide IsSpace, Trim, Collapse;
  }

  /** A name of part characters between spaces is cut behind its 48th character. */
  lemma SlugOfParts(before: string, name: string, after: string, fallback: string)
    requires forall c :: c in before + after ==> IsSpace(c)
    requires AllPartChars(name)
    ensures Slug(before + name + after, fallback) ==
      var slug := Trim(if |name| <= 48 then name else name[..48], IsDash);
      if slug == "" then fallback else slug
  {
    hide IsSpace, IsPartChar, Trim, Collapse, AllPartChars, Slug, IsDash;
    if name != "" { EndsAreNoSpace(name); }
    TrimSkips(before, name, after, IsSpace);
    CollapseKeepsAllowed(name);
    SlugOfTrimmed(before + name + after, name, fallback);
  }

  lemma DashesGo(left: string, core: string, right: string)
    requires forall c :: c in left + right ==> c == '-'
    requires (core == "" && right == "") || IsSlug(core)
    ensures Trim(left + core + right, IsDash) == core
  {
    TrimSkips(left, core, right, IsDash);
  }

  lemma KeptPart(kept: string, more: string)
    requires |kept| <= 48 && (more != "" ==> |kept| == 48)
    ensures (if |kept + more| <= 48 then kept + more else (kept + more)[..48]) == kept
  {
    if more == "" { assert kept + more == kept; }
  }

  /** What is kept of a long name is its first 48 characters, less the dashes at their ends; if
      nothing else is left, the slug is the fallback. */
  lemma SlugCuts(before: string, left: string, core: string, right: string, more: string, after: string, fallback: string)
    requires forall c :: c in before + after ==> IsSpace(c)
    requires forall c :: c in left + right ==> c == '-'
    requires (core == "" && right == "") || IsSlug(core)
    requires AllPartChars(left + core + right + more)
    requires |left + core + right| <= 48 && (more != "" ==> |left + core + right| == 48)
    ensures Slug(before + (left + core + right + more) + after, fallback) == if core == "" then fallback else core
  {
    hide IsSpace, IsPartChar, AllPartChars, Trim, IsSlug, IsDash, Slug;
    SlugOfParts(before, left + core + right + more, after, fallback);
    KeptPart(left + core + right, more);
    DashesGo(left, core, right);
  }

  // ----- UUIDs -----

  type Bytes16 = raw: seq<bv8> | |raw| == 16 witness seq(16, _ => 0)

  predicate DashAt(i: int) {
    i == 8 || i == 13 || i == 18 || i == 23
  }

  predicate IsHex(c: char) {
    '0' <= c <= '9' || 'a' <= c <= 'f'
  }

  /** The last group of the session id grammar. */
  predicate IsUuid(s: string) {
    && |s| == 36
    && forall i :: 0 <= i < 36 ==> if DashAt(i) then s[i] == '-' else IsHex(s[i])
  }

  /** The seed grammar: a version digit from 1 to 8 and the variant of section 4.1 of RFC 9562. */
  predicate IsSeed(s: string) {
    IsUuid(s) && '1' <= s[14] <= '8' && (s[19] == '8' || s[19] == '9' || s[19] == 'a' || s[19] == 'b')
  }

  function HexDigit(n: bv8): char {
    if n < 10 then '0' + n as char else if n < 16 then 'a' + (n - 10) as char else '?'
  }

  /** The four bits that the k-th hexadecimal digit of `raw` shows. */
  function Nibble(raw: seq<bv8>, k: nat): bv8
    requires k < 2 * |raw|
  {
    if k % 2 == 0 then raw[k / 2] >> 4 else raw[k / 2] & 0x0f
  }

  function Stamped(raw: Bytes16): Bytes16 {
    raw[6 := (raw[6] & 0x0f) | 0x40][8 := (raw[8] & 0x3f) | 0x80]
  }

  function Hex(raw: seq<bv8>): string {
    seq(2 * |raw|, k requires 0 <= k < 2 * |raw| => HexDigit(Nibble(raw, k)))
  }

  function Uuid(raw: Bytes16): string {
    var m := Stamped(raw);
    Hex(m[..4]) + "-" + Hex(m[4..6]) + "-" + Hex(m[6..8]) + "-" + Hex(m[8..10]) + "-" + Hex(m[10..])
  }

  lemma HexNext(raw: seq<bv8>, i: nat)
    requires i < |raw|
    ensures Hex(raw[..i + 1]) == Hex(raw[..i]) + [HexDigit(raw[i] >> 4), HexDigit(raw[i] & 0x0f)]
  {
    var all, before := Hex(raw[..i + 1]), Hex(raw[..i]);
    forall k | 0 <= k < 2 * i
      ensures all[k] == before[k]
    {
      assert raw[..i + 1][k / 2] == raw[..i][k / 2];
    }
    assert (2 * i) / 2 == i && (2 * i + 1) / 2 == i && (2 * i) % 2 == 0 && (2 * i + 1) % 2 == 1;
  }

  /** hex.Encode into a slice of `dst`. */
  method HexEncode(dst: array<char>, at: nat, src: seq<bv8>)
    requires at + 2 * |src| <= dst.Length
    modifies dst
    ensures dst[..at + 2 * |src|] == old(dst[..at]) + Hex(src)
    ensures dst[at + 2 * |src|..] == old(dst[at + 2 * |src|..])
  {
    for i := 0 to |src|
      invariant dst[..at + 2 * i] == old(dst[..at]) + Hex(src[..i])
      invariant dst[at + 2 * |src|..] == old(dst[at + 2 * |src|..])
    {
      HexNext(src, i);
      var j := at + 2 * i;
      dst[j] := HexDigit(src[i] >> 4);
      dst[j + 1] := HexDigit(src[i] & 0x0f);
      assert dst[..j + 2] == dst[..j] + [dst[j], dst[j + 1]];
    }
    assert src[..|src|] == src;
  }

  method RandomUuid(raw: array<bv8>) returns (s: string)
    requires raw.Length == 16
    modifies raw
    ensures raw[..] == Stamped(old(raw[..]))
    ensures s == Uuid(old(raw[..]))
  {
    hide Hex;
    raw[6] := (raw[6] & 0x0f) | 0x40;
    raw[8] := (raw[8] & 0x3f) | 0x80;
    ghost var m := raw[..];
    assert m == Stamped(old(raw[..]));
    var encoded := new char[36];
    HexEncode(encoded, 0, raw[..4]);
    encoded[8] := '-';
    assert encoded[..9] == encoded[..8] + "-";
    HexEncode(encoded, 9, raw[4..6]);
    encoded[13] := '-';
    assert encoded[..14] == encoded[..13] + "-";
    HexEncode(encoded, 14, raw[6..8]);
    encoded[18] := '-';
    assert encoded[..19] == encoded[..18] + "-";
    HexEncode(encoded, 19, raw[8..10]);
    encoded[23] := '-';
    assert encoded[..24] == encoded[..23] + "-";
    HexEncode(encoded, 24, raw[10..]);
    assert encoded[..0] == "" && encoded[..36] == encoded[..];
    assert encoded[..0] + Hex(m[..4]) == Hex(m[..4]);
    return encoded[..];
  }

  lemma NibbleIsHex(raw: seq<bv8>, k: nat)
    requires k < 2 * |raw|
    ensures Nibble(raw, k) < 16 && IsHex(HexDigit(Nibble(raw, k)))
  {
    assert raw[k / 2] >> 4 < 16 && raw[k / 2] & 0x0f < 16;
  }

  lemma HexIsHex(raw: seq<bv8>)
    ensures forall c :: c in Hex(raw) ==> IsHex(c)
  {
    forall k | 0 <= k < 2 * |raw|
      ensures IsHex(Hex(raw)[k])
    {
      NibbleIsHex(raw, k);
    }
  }

  lemma StampBits(six: bv8, eight: bv8)
    ensures ((six & 0x0f) | 0x40) >> 4 == 4
    ensures 8 <= ((eight & 0x3f) | 0x80) >> 4 < 12
  {
  }

  /** Sixteen bytes of any value give a UUID of version 4 (section 5.4 of RFC 9562). */
  lemma RandomUuidIsSeed(raw: Bytes16)
    ensures IsSeed(Uuid(raw)) && Uuid(raw)[14] == '4'
  {
    var m := Stamped(raw);
    HexIsHex(m[..4]);
    HexIsHex(m[4..6]);
    HexIsHex(m[6..8]);
    HexIsHex(m[8..10]);
    HexIsHex(m[10..]);
    StampBits(raw[6], raw[8]);
    assert Hex(m[6..8])[0] == HexDigit(m[6] >> 4) && Hex(m[8..10])[0] == HexDigit(m[8] >> 4);
  }

  lemma DigitShowsNibble(m: bv8, n: bv8)
    requires m < 16 && n < 16 && HexDigit(m) == HexDigit(n)
    ensures m == n
  {
  }

  lemma NibblesMakeByte(a: bv8, b: bv8)
    requires a >> 4 == b >> 4 && a & 0x0f == b & 0x0f
    ensures a == b
  {
  }

  lemma DigitsAt(raw: seq<bv8>, i: nat)
    requires i < |raw|
    ensures Hex(raw)[2 * i] == HexDigit(raw[i] >> 4) && Hex(raw)[2 * i + 1] == HexDigit(raw[i] & 0x0f)
  {
    hide HexDigit;
    assert (2 * i) / 2 == i && (2 * i + 1) / 2 == i && (2 * i) % 2 == 0 && (2 * i + 1) % 2 == 1;
  }

  lemma DigitsMakeByte(a: bv8, b: bv8)
    requires HexDigit(a >> 4) == HexDigit(b >> 4) && HexDigit(a & 0x0f) == HexDigit(b & 0x0f)
    ensures a == b
  {
    assert a >> 4 < 16 && b >> 4 < 16 && a & 0x0f < 16 && b & 0x0f < 16;
    DigitShowsNibble(a >> 4, b >> 4);
    DigitShowsNibble(a & 0x0f, b & 0x0f);
    NibblesMakeByte(a, b);
  }

  lemma HexIsInjective(a: seq<bv8>, b: seq<bv8>)
    requires |a| == |b| && Hex(a) == Hex(b)
    ensures a == b
  {
    hide Hex, HexDigit;
    forall i | 0 <= i < |a|
      ensures a[i] == b[i]
    {
      DigitsAt(a, i);
      DigitsAt(b, i);
      DigitsMakeByte(a[i], b[i]);
    }
  }

  /** Nothing but the version and variant bits is lost: two draws collide only when every
      other bit agrees. */
  lemma UuidsCollideExactly(a: Bytes16, b: Bytes16)
    ensures Uuid(a) == Uuid(b) <==> Stamped(a) == Stamped(b)
  {
    if Uuid(a) == Uuid(b) {
      var m, n := Stamped(a), Stamped(b);
      PartsOfUuid(a);
      PartsOfUuid(b);
      HexIsInjective(m[..4], n[..4]);
      HexIsInjective(m[4..6], n[4..6]);
      HexIsInjective(m[6..8], n[6..8]);
      HexIsInjective(m[8..10], n[8..10]);
      HexIsInjective(m[10..], n[10..]);
      assert m == m[..4] + m[4..6] + m[6..8] + m[8..10] + m[10..];
      assert n == n[..4] + n[4..6] + n[6..8] + n[8..10] + n[10..];
    }
  }

  lemma PartsOfUuid(raw: Bytes16)
    ensures var s, m := Uuid(raw), Stamped(raw);
      && |s| == 36
      && s[..8] == Hex(m[..4]) && s[9..13] == Hex(m[4..6]) && s[14..18] == Hex(m[6..8])
      && s[19..23] == Hex(m[8..10]) && s[24..] == Hex(m[10..])
  {
    var m := Stamped(raw);
    CutAtDashes(Hex(m[..4]), Hex(m[4..6]), Hex(m[6..8]), Hex(m[8..10]), Hex(m[10..]));
  }

  lemma CutAtDashes(a: string, b: string, c: string, d: string, e: string)
    ensures var s := a + "-" + b + "-" + c + "-" + d + "-" + e;
      var i, j, k := |a| + 1 + |b|, |a| + 2 + |b| + |c|, |a| + 3 + |b| + |c| + |d|;
      && |s| == k + 1 + |e|
      && s[..|a|] == a && s[|a| + 1..i] == b && s[i + 1..j] == c && s[j + 1..k] == d && s[k + 1..] == e
  {
    var s := a + "-" + b + "-" + c + "-" + d + "-" + e;
    var i, j := |a| + 1 + |b|, |a| + 2 + |b| + |c|;
    assert s[..i] == a + "-" + b;
    assert s[..j] == a + "-" + b + "-" + c;
  }

  // ----- The alphabets -----

  lemma PartCharsExactly(c: char)
    ensures IsPartChar(c) <==>
      c in "ABCDEFGHIJKLMNOPQRSTUVWXYZ" || c in "abcdefghijklmnopqrstuvwxyz" || c in "0123456789.-"
  {
  }

  ghost predicate HexOf(s: string, n: nat) {
    |s| == n && forall i :: 0 <= i < n ==> s[i] in "0123456789abcdef"
  }

  lemma HexExactly(c: char)
    ensures IsHex(c) <==> c in "0123456789abcdef"
  {
  }

  lemma HexOfExactly(s: string, n: nat)
    ensures HexOf(s, n) <==> |s| == n && forall i :: 0 <= i < n ==> IsHex(s[i])
  {
    hide IsHex;
    forall c: char
      ensures IsHex(c) <==> c in "0123456789abcdef"
    {
      HexExactly(c);
    }
  }

  /** The five groups of a UUID between its dashes. */
  ghost predicate InGroups(s: string, a: string, b: string, c: string, d: string, e: string) {
    && s == a + "-" + b + "-" + c + "-" + d + "-" + e
    && HexOf(a, 8) && HexOf(b, 4) && HexOf(c, 4) && HexOf(d, 4) && HexOf(e, 12)
  }

  lemma GroupsMakeUuid(s: string, a: string, b: string, c: string, d: string, e: string)
    requires InGroups(s, a, b, c, d, e)
    ensures IsUuid(s) && |c| == |d| == 4 && s[14] == c[0] && s[19] == d[0]
  {
    HexOfExactly(a, 8);
    HexOfExactly(b, 4);
    HexOfExactly(c, 4);
    HexOfExactly(d, 4);
    HexOfExactly(e, 12);
    hide HexOf, IsHex;
    CutAtDashes(a, b, c, d, e);
    forall i | 0 <= i < 36
      ensures if DashAt(i) then s[i] == '-' else IsHex(s[i])
    {
      if i < 8 { assert s[i] == a[i]; }
      else if 8 < i < 13 { assert s[i] == b[i - 9]; }
      else if 13 < i < 18 { assert s[i] == c[i - 14]; }
      else if 18 < i < 23 { assert s[i] == d[i - 19]; }
      else if 23 < i { assert s[i] == e[i - 24]; }
    }
  }

  lemma UuidHasGroups(s: string)
    requires IsUuid(s)
    ensures |s| == 36 && InGroups(s, s[..8], s[9..13], s[14..18], s[19..23], s[24..])
  {
    HexOfExactly(s[..8], 8);
    HexOfExactly(s[9..13], 4);
    HexOfExactly(s[14..18], 4);
    HexOfExactly(s[19..23], 4);
    HexOfExactly(s[24..], 12);
    hide HexOf, IsHex;
    assert s == s[..8] + "-" + s[9..13] + "-" + s[14..18] + "-" + s[19..23] + "-" + s[24..];
  }

  /** The grammars of a UUID and of a seed, said by their groups: lower-case hexadecimal, and for
      a seed a version from 1 to 8 and a variant of 8, 9, a or b. */
  lemma UuidsExactly(s: string)
    ensures IsUuid(s) <==> exists a, b, c, d, e :: InGroups(s, a, b, c, d, e)
    ensures IsSeed(s) <==> exists a, b, c, d, e :: InGroups(s, a, b, c, d, e) && c[0] in "12345678" && d[0] in "89ab"
  {
    hide IsUuid, InGroups;
    if IsUuid(s) {
      UuidHasGroups(s);
      GroupsMakeUuid(s, s[..8], s[9..13], s[14..18], s[19..23], s[24..]);
    }
    forall a, b, c, d, e | InGroups(s, a, b, c, d, e)
      ensures IsUuid(s) && |c| == |d| == 4 && |s| == 36 && s[14] == c[0] && s[19] == d[0]
    {
      GroupsMakeUuid(s, a, b, c, d, e);
      UuidHasGroups(s);
    }
  }
}

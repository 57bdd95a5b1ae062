/** Which fields the sanitizer replaces, said by what their pointers lead to. */
module SanitizeFields {
  import opened Wrappers
  import opened Utf8
  import opened SanitizeText
  import opened Sanitize
  import opened SanitizeCopies

  /** Exactly n pointers lead from v to `end`, which is no pointer. */
  ghost predicate LeadsTo(h: Heap, v: Value, n: nat, end: Value)
    decreases n
  {
    var hop := v.Ref? && v.id in h && h[v.id].Pointer?;
    if n == 0 then v == end && !hop else hop && LeadsTo(h, h[v.id].target, n - 1, end)
  }

  ghost predicate EndsIn(h: Heap, v: Value, end: Value) {
    exists n: nat :: LeadsTo(h, v, n, end)
  }

  /** The pointers from v lead to the string w. */
  ghost predicate ReadsAs(h: Heap, v: Value, w: string) {
    EndsIn(h, v, Text(w)) || EndsIn(h, v, Number(w))
  }

  /** A field of a group whose type field is `kind` holds binary content. */
  ghost predicate HoldsBinary(h: Heap, kind: Value, item: Item) {
    && item.key.Some?
    && (item.key.value == "blob"
        || (item.key.value == "data" && (ReadsAs(h, kind, "image") || ReadsAs(h, kind, "audio"))))
    && exists w :: w != "" && ReadsAs(h, item.value, w)
  }

  // ----- Following pointers -----

  lemma {:induction false} FollowedLeads(h: Heap, v: Value, passed: set<Id>) returns (n: nat)
    requires ChainEnd(h, v, passed).Some?
    ensures LeadsTo(h, v, n, ChainEnd(h, v, passed).value)
    decreases h.Keys - passed
  {
    if IsHop(h, v) {
      n := FollowedLeads(h, h[v.id].target, passed + {v.id});
      n := n + 1;
    } else {
      n := 0;
    }
  }

  lemma {:induction false} LeadingEnds(h: Heap, v: Value, n: nat, end: Value)
    requires LeadsTo(h, v, n, end)
    ensures EndsAfter(h, v, n)
    decreases n
  {
    if n > 0 { LeadingEnds(h, h[v.id].target, n - 1, end); }
  }

  lemma {:induction false} LeadsOnce(h: Heap, v: Value, m: nat, a: Value, n: nat, b: Value)
    requires LeadsTo(h, v, m, a) && LeadsTo(h, v, n, b)
    ensures m == n && a == b
    decreases m
  {
    if m > 0 { LeadsOnce(h, h[v.id].target, m - 1, a, n - 1, b); }
  }

  lemma ChainEndExactly(h: Heap, v: Value, end: Value)
    ensures ChainEnd(h, v, {}) == Some(end) <==> EndsIn(h, v, end)
  {
    if ChainEnd(h, v, {}) == Some(end) {
      var n := FollowedLeads(h, v, {});
    } else if n: nat :| LeadsTo(h, v, n, end) {
      LeadingEnds(h, v, n, end);
      EndingChainIsFollowed(h, v, n, {});
      var m := FollowedLeads(h, v, {});
      LeadsOnce(h, v, m, ChainEnd(h, v, {}).value, n, end);
    }
  }

  /** reflectedString finds a non-empty string exactly where pointers lead to it. */
  lemma ReadsExactly(h: Heap, v: Value, w: string)
    requires w != ""
    ensures ReflectedString(h, v) == Some(w) <==> ReadsAs(h, v, w)
  {
    ChainEndExactly(h, v, Text(w));
    ChainEndExactly(h, v, Number(w));
  }

  lemma BinaryExactly(h: Heap, kind: Value, item: Item)
    requires ReflectedString(h, kind).Some? && Inspected(h, item).Some?
    ensures IsBinaryField(item.key, ReflectedString(h, kind).value, Inspected(h, item).value) <==> HoldsBinary(h, kind, item)
  {
    hide ReflectedString, ReadsAs;
    ReadsExactly(h, kind, "image");
    ReadsExactly(h, kind, "audio");
    if item.key.Some? {
      forall w | w != ""
        ensures ReflectedString(h, item.value) == Some(w) <==> ReadsAs(h, item.value, w)
      {
        ReadsExactly(h, item.value, w);
      }
      var reflected := ReflectedString(h, item.value).value;
      if reflected != "" { assert ReadsAs(h, item.value, reflected); }
    }
  }

  // ----- The group -----

  lemma {:induction false} ItemIsCopied(h: Heap, items: seq<Item>, objectType: string, seen: set<Visit>, left: nat,
                                        outs: seq<OutItem>, i: nat)
    requires AreCopies(h, items, objectType, seen, left, true, outs) && i < |items|
    ensures |outs| == |items| && outs[i].key == items[i].key
    ensures IsItemCopy(h, items[i], objectType, seen, left, true, outs[i].out)
    decreases |items|
  {
    hide IsItemCopy;
    if i > 0 {
      ItemIsCopied(h, items[1..], objectType, seen, left, outs[1..], i - 1);
    } else if |items| > 1 {
      ItemIsCopied(h, items[1..], objectType, seen, left, outs[1..], 0);
    } else {
      assert outs[1..] == [];
    }
  }

  lemma PlaceholderIsCutAnywhere(budget: nat)
    requires budget < 16
    ensures |Truncated("[binary removed]", budget)| == budget
  {
    assert forall c :: c in "[binary removed]" ==> c as int < 0x80;
    assert IsRuneStart("[binary removed]"[budget]);
  }

  lemma PlaceholderIsOnlyCut(budget: nat)
    ensures Cleaned("[binary removed]", budget) == Truncated("[binary removed]", budget)
    ensures budget >= 16 ==> Truncated("[binary removed]", budget) == "[binary removed]"
  {
  }

  /** A placeholder that did not use the budget up is whole. */
  lemma PlaceholderIsWhole(text: string, left: nat)
    requires CleanedFrom(text, "[binary removed]", left) && left > 0
    ensures text == "[binary removed]"
  {
    hide Cleaned, Truncated;
    var budget: nat :| budget >= left + |text| && text == Cleaned("[binary removed]", budget);
    PlaceholderIsOnlyCut(budget);
    if budget < 16 { PlaceholderIsCutAnywhere(budget); }
  }

  /** A group that was copied with budget to spare shows every item, in order and under its key.
      Binary content is shown as the placeholder, each other item as a copy of itself; a text
      outside binary content as its own cleaning. */
  lemma GroupShowsItsItems(h: Heap, kind: Value, items: seq<Item>, seen: set<Visit>, remaining: nat, i: nat)
    requires SanitizeValue(h, Composite(kind, items), seen, remaining).Done?
    requires SanitizeValue(h, Composite(kind, items), seen, remaining).remaining > 0
    requires i < |items|
    ensures var r, item := SanitizeValue(h, Composite(kind, items), seen, remaining), items[i];
      && r.out.Group? && |r.out.outs| == |items| && r.out.outs[i].key == item.key
      && (HoldsBinary(h, kind, item) ==> r.out.outs[i].out == OutText("[binary removed]"))
      && (!HoldsBinary(h, kind, item) ==> IsCopy(h, item.value, seen, r.remaining, true, r.out.outs[i].out))
      && (!HoldsBinary(h, kind, item) && item.value.Text? ==>
            r.out.outs[i].out.OutText? && CleanedFrom(r.out.outs[i].out.text, item.value.text, r.remaining))
  {
    var v := Composite(kind, items);
    var r := SanitizeValue(h, v, seen, remaining);
    CopyIsFaithful(h, v, seen, remaining, r.remaining);
    var objectType := ReflectedString(h, kind).value;
    hide SanitizeValue, CleanedFrom, HoldsBinary, AreCopies, ReflectedString;
    ItemIsCopied(h, items, objectType, seen, r.remaining, r.out.outs, i);
    BinaryExactly(h, kind, items[i]);
    if HoldsBinary(h, kind, items[i]) { PlaceholderIsWhole(r.out.outs[i].out.text, r.remaining); }
  }
}

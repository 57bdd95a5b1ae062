/** What the sanitizer's copy has to do with its input, said without the walk. */
module SanitizeCopies {
  import opened Wrappers
  import opened SanitizeText
  import opened Sanitize

  /** The text was cleaned under a budget that covered it and the `left` bytes that remained. */
  ghost predicate CleanedFrom(text: string, original: string, left: nat) {
    exists budget: nat :: budget >= left + |text| && text == Cleaned(original, budget)
  }

  /** `out` shows v, apart from objects in `seen`; all of it if `full`. While its texts were
      copied at least `left` bytes of the budget were to remain. */
  ghost predicate IsCopy(h: Heap, v: Value, seen: set<Visit>, left: nat, full: bool, out: Out)
    decreases Visits(h) - seen, v, 1
  {
    match v
    case Nil => out == Null
    case Text(text) => out.OutText? && CleanedFrom(out.text, text, left)
    case Number(_) => out == OutScalar(v)
    case Scalar(_) => out == OutScalar(v)
    case Verbatim(_) => out == OutScalar(v)
    case Ref(id) =>
      if id !in h then out == Null
      else if h[id].visit in seen then out.Marker? && CleanedFrom(out.text, "[circular]", left)
      else
        assert h[id].visit in Visits(h);
        IsCopy(h, Contents(h[id]), seen + {h[id].visit}, left, full, out)
    case Composite(kind, items) =>
      && ReflectedString(h, kind).Some? && out.Group?
      && AreCopies(h, items, ReflectedString(h, kind).value, seen, left, full, out.outs)
  }

  ghost predicate IsItemCopy(h: Heap, item: Item, objectType: string, seen: set<Visit>, left: nat, full: bool, out: Out)
    decreases Visits(h) - seen, item, 0
  {
    && Inspected(h, item).Some?
    && if IsBinaryField(item.key, objectType, Inspected(h, item).value)
       then out.OutText? && CleanedFrom(out.text, "[binary removed]", left)
       else IsCopy(h, item.value, seen, left, full, out)
  }

  /** The copies follow the items one by one, under the same keys. Only the last one may be
      incomplete, and only then may items be missing behind it. */
  ghost predicate AreCopies(h: Heap, items: seq<Item>, objectType: string, seen: set<Visit>, left: nat, full: bool, outs: seq<OutItem>)
    decreases Visits(h) - seen, items, 0
  {
    if outs == [] then full ==> items == []
    else
      && items != [] && outs[0].key == items[0].key
      && (IsItemCopy(h, items[0], objectType, seen, left, true, outs[0].out)
          || (!full && |outs| == 1 && IsItemCopy(h, items[0], objectType, seen, left, false, outs[0].out)))
      && AreCopies(h, items[1..], objectType, seen, left, full, outs[1..])
  }

  lemma CleanTextIsCleaned(original: string, budget: nat, left: nat)
    requires left <= SanitizeString(original, budget).1
    ensures CleanedFrom(SanitizeString(original, budget).0, original, left)
  {
    OutputFits(original, budget);
  }

  /** The sanitizer returns a copy of its input, complete unless the budget is used up. */
  lemma {:induction false} CopyIsFaithful(h: Heap, v: Value, seen: set<Visit>, remaining: nat, left: nat)
    ensures var r := SanitizeValue(h, v, seen, remaining);
      r.Done? && left <= r.remaining ==> IsCopy(h, v, seen, left, r.remaining > 0, r.out)
    decreases Visits(h) - seen, v, 1
  {
    var r := SanitizeValue(h, v, seen, remaining);
    if r.Done? && left <= r.remaining {
      match v
      case Text(text) => CleanTextIsCleaned(text, remaining, left);
      case Ref(id) =>
        if id in h {
          if h[id].visit in seen {
            CleanTextIsCleaned(CIRCULAR, remaining, left);
          } else {
            assert h[id].visit in Visits(h);
            CopyIsFaithful(h, Contents(h[id]), seen + {h[id].visit}, remaining, left);
          }
        }
      case Composite(kind, items) =>
        CopiesAreFaithful(h, items, ReflectedString(h, kind).value, seen, remaining, left);
      case _ =>
    }
  }

  lemma {:induction false} ItemCopyIsFaithful(h: Heap, item: Item, objectType: string, seen: set<Visit>, remaining: nat, left: nat)
    ensures var r := SanitizeItem(h, item, objectType, seen, remaining);
      r.Done? && left <= r.remaining ==> IsItemCopy(h, item, objectType, seen, left, r.remaining > 0, r.out)
    decreases Visits(h) - seen, item, 0
  {
    if left <= SanitizeString(BINARY_REMOVED, remaining).1 { CleanTextIsCleaned(BINARY_REMOVED, remaining, left); }
    CopyIsFaithful(h, item.value, seen, remaining, left);
  }

  lemma {:induction false} CopiesAreFaithful(h: Heap, items: seq<Item>, objectType: string, seen: set<Visit>, remaining: nat, left: nat)
    ensures var r := SanitizeItems(h, items, objectType, seen, remaining);
      r.Done? && left <= r.remaining ==> AreCopies(h, items, objectType, seen, left, r.remaining > 0, r.out)
    decreases Visits(h) - seen, items, 0
  {
    if items != [] && remaining >= Cost(items[0].key) {
      var rest := remaining - Cost(items[0].key);
      ItemCopyIsFaithful(h, items[0], objectType, seen, rest, left);
      var one := SanitizeItem(h, items[0], objectType, seen, rest);
      if one.Done? {
        var first := [OutItem(items[0].key, one.out)];
        if one.remaining == 0 {
          assert first[1..] == [];
        } else {
          CopiesAreFaithful(h, items[1..], objectType, seen, one.remaining, left);
          BudgetCoversItems(h, items[1..], objectType, seen, one.remaining);
          var more := SanitizeItems(h, items[1..], objectType, seen, one.remaining);
          assert more.Done? ==> (first + more.out)[1..] == more.out;
        }
      }
    }
  }

  /** A text no longer than what was left comes out as its own cleaning, uncut: verbatim
      exactly when it is no payload and has no long run. */
  lemma ShortTextIsUncut(text: string, original: string, left: nat)
    requires CleanedFrom(text, original, left) && |original| <= left
    ensures text == Cleaned(original, |original|)
    ensures text == original <==> !IsBase64Payload(original) && NoLongRun(original)
  {
    hide IsBase64Payload, NoLongRun, Cleaned;
    var budget: nat :| budget >= left + |text| && text == Cleaned(original, budget);
    CleanedWithin(original, budget);
    OutputFits(original, budget);
    KeptExactly(original, budget);
  }

  lemma CleanedWithin(original: string, budget: nat)
    requires |original| <= budget
    ensures Cleaned(original, budget) == Cleaned(original, |original|)
  {
  }

  /** For instance every text field of a completely copied object: under its key stands its
      cleaning, uncut, if it is no longer than the budget that was left at the end. */
  lemma {:induction false} ShortFieldIsUncut(h: Heap, items: seq<Item>, objectType: string, seen: set<Visit>, left: nat,
                                             outs: seq<OutItem>, i: nat)
    requires AreCopies(h, items, objectType, seen, left, true, outs)
    requires i < |items| && items[i].value.Text? && |items[i].value.text| <= left
    requires !IsBinaryField(items[i].key, objectType, items[i].value.text)
    ensures i < |outs| && outs[i] == OutItem(items[i].key, OutText(Cleaned(items[i].value.text, |items[i].value.text|)))
    decreases i
  {
    if i == 0 {
      assert IsItemCopy(h, items[0], objectType, seen, left, true, outs[0].out);
      assert ReflectedString(h, items[0].value) == Some(items[0].value.text);
      assert IsCopy(h, items[0].value, seen, left, true, outs[0].out);
      ShortTextIsUncut(outs[0].out.text, items[0].value.text, left);
    } else {
      ShortFieldIsUncut(h, items[1..], objectType, seen, left, outs[1..], i - 1);
    }
  }
}

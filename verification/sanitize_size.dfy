/** How large the sanitizer's copy can get. The budget bounds what the walk charges; what it
    passes through comes on top. */
module SanitizeSizes {
  import opened Wrappers
  import opened Sanitize
  import SanitizeText

  /** The bytes of a value that the walk hands over as it is: a json.Number of any length, or
      a map whose keys are no strings. Scalars of fixed size count for nothing here. */
  function PassedBy(v: Value): nat {
    match v
    case Number(text) => |text|
    case Verbatim(size) => size
    case _ => 0
  }

  function Passed(out: Out): nat {
    match out
    case OutScalar(v) => PassedBy(v)
    case Group(outs) => PassedOf(outs)
    case _ => 0
  }

  function PassedOf(outs: seq<OutItem>): nat {
    if outs == [] then 0 else ItemPassed(outs[0]) + PassedOf(outs[1..])
  }

  function ItemPassed(o: OutItem): nat {
    Passed(o.out)
  }

  /** No value inside v that would be passed through is larger than m. */
  predicate PassesAtMost(v: Value, m: nat)
    decreases v, 1
  {
    PassedBy(v) <= m && (v.Composite? ==> ItemsPassAtMost(v.items, m))
  }

  predicate ItemsPassAtMost(items: seq<Item>, m: nat)
    decreases items, 0
  {
    items != [] ==> ItemPassesAtMost(items[0], m) && ItemsPassAtMost(items[1..], m)
  }

  predicate ItemPassesAtMost(item: Item, m: nat)
    decreases item, 0
  {
    PassesAtMost(item.value, m)
  }

  predicate HeapPassesAtMost(h: Heap, m: nat) {
    forall id :: id in h ==> PassesAtMost(Contents(h[id]), m)
  }

  predicate Within(out: Out, m: nat) {
    Passed(out) <= m * Nodes(out)
  }

  predicate AllWithin(outs: seq<OutItem>, m: nat) {
    PassedOf(outs) <= m * NodesOf(outs)
  }

  lemma LeafWithin(out: Out, m: nat)
    requires !out.Group? && Passed(out) <= m
    ensures Within(out, m)
  {
  }

  lemma GroupWithin(outs: seq<OutItem>, m: nat)
    requires AllWithin(outs, m)
    ensures Within(Group(outs), m)
  {
    Distribute(m, 1, NodesOf(outs));
  }

  lemma NoneWithin(m: nat)
    ensures AllWithin([], m)
  {
  }

  lemma FirstWithin(first: OutItem, rest: seq<OutItem>, m: nat)
    requires Within(first.out, m) && AllWithin(rest, m)
    ensures AllWithin([first] + rest, m)
  {
    assert ([first] + rest)[1..] == rest;
    Distribute(m, ItemNodes(first), NodesOf(rest));
  }

  lemma {:induction false} PassedIsBounded(h: Heap, v: Value, seen: set<Visit>, remaining: nat, m: nat)
    requires HeapPassesAtMost(h, m) && PassesAtMost(v, m)
    ensures var r := SanitizeValue(h, v, seen, remaining);
      r.Done? ==> Within(r.out, m)
    decreases Visits(h) - seen, v, 1
  {
    hide Within, AllWithin;
    var r := SanitizeValue(h, v, seen, remaining);
    if v.Ref? && v.id in h && h[v.id].visit !in seen {
      assert h[v.id].visit in Visits(h);
      PassedIsBounded(h, Contents(h[v.id]), seen + {h[v.id].visit}, remaining, m);
    } else if v.Composite? {
      if ReflectedString(h, v.kind).Some? {
        var objectType := ReflectedString(h, v.kind).value;
        PassedByItemsIsBounded(h, v.items, objectType, seen, remaining, m);
        if r.Done? { GroupWithin(r.out.outs, m); }
      }
    } else if r.Done? {
      LeafWithin(r.out, m);
    }
  }

  lemma {:induction false} PassedByItemIsBounded(h: Heap, item: Item, objectType: string, seen: set<Visit>, remaining: nat, m: nat)
    requires HeapPassesAtMost(h, m) && ItemPassesAtMost(item, m)
    ensures var r := SanitizeItem(h, item, objectType, seen, remaining);
      r.Done? ==> Within(r.out, m)
    decreases Visits(h) - seen, item, 0
  {
    hide Within;
    PassedIsBounded(h, item.value, seen, remaining, m);
    LeafWithin(OutText(SanitizeText.SanitizeString(SanitizeText.BINARY_REMOVED, remaining).0), m);
  }

  lemma {:induction false} PassedByItemsIsBounded(h: Heap, items: seq<Item>, objectType: string, seen: set<Visit>, remaining: nat, m: nat)
    requires HeapPassesAtMost(h, m) && ItemsPassAtMost(items, m)
    ensures var r := SanitizeItems(h, items, objectType, seen, remaining);
      r.Done? ==> AllWithin(r.out, m)
    decreases Visits(h) - seen, items, 0
  {
    hide HeapPassesAtMost, Within, AllWithin;
    NoneWithin(m);
    if items != [] && remaining >= Cost(items[0].key) {
      var left := remaining - Cost(items[0].key);
      PassedByItemIsBounded(h, items[0], objectType, seen, left, m);
      var one := SanitizeItem(h, items[0], objectType, seen, left);
      if one.Done? {
        var first := OutItem(items[0].key, one.out);
        FirstWithin(first, [], m);
        assert [first] + [] == [first];
        if one.remaining > 0 {
          PassedByItemsIsBounded(h, items[1..], objectType, seen, one.remaining, m);
          var rest := SanitizeItems(h, items[1..], objectType, seen, one.remaining);
          if rest.Done? { FirstWithin(first, rest.out, m); }
        }
      }
    }
  }

  lemma Distribute(m: nat, a: nat, b: nat)
    ensures m * (a + b) == m * a + m * b
  {
  }

  lemma Monotone(m: nat, a: nat, b: nat)
    requires a <= b
    ensures m * a <= m * b
  {
    Distribute(m, a, b - a);
    assert m * (b - a) >= 0;
  }

  /** The copy of any graph takes at most the budget, and for each of its at most 32,769 nodes
      the largest value that is passed through. */
  lemma SizeIsBounded(h: Heap, v: Value, m: nat)
    requires HeapPassesAtMost(h, m) && PassesAtMost(v, m)
    ensures var r := SanitizeValue(h, v, {}, BUDGET);
      r.Done? ==> Weight(r.out) + Passed(r.out) <= 65536 + m * 32769
  {
    CopyIsBounded(h, v);
    PassedIsBounded(h, v, {}, BUDGET, m);
    var r := SanitizeValue(h, v, {}, BUDGET);
    hide HeapPassesAtMost, PassesAtMost, SanitizeValue;
    if r.Done? { Monotone(m, Nodes(r.out), 1 + BUDGET / 2); }
  }

  /** No bound holds for all graphs: a value that is passed through weighs nothing. */
  lemma VerbatimIsUncharged(size: nat)
    ensures var r := SanitizeValue(map[], Verbatim(size), {}, BUDGET);
      r.Done? && r.remaining == BUDGET && Weight(r.out) == 0 && Passed(r.out) == size
  {
  }
}

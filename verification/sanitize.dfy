/** The sanitizer's walk (sanitize.go) over a possibly cyclic object graph. */
module Sanitize {
  import opened Wrappers
  import opened SanitizeText

  type Id = nat

  /** The (type, pointer) pair by which the walk recognises an object. */
  type Visit = nat

  /** A decoded Go value. Interfaces are transparent. A `Scalar`, which has a fixed size, and
      a `Verbatim`, a map whose keys are no strings, are passed through uncharged; a `Number`
      (json.Number) is passed through too, but reads as a string.
      `Composite` is an array or a struct; `kind` is what its "type" field holds, Nil if it
      has none. Items come in the order of the walk: fields sorted by name. */
  datatype Value =
    | Nil
    | Text(text: string)
    | Number(text: string)
    | Scalar(n: int)
    | Verbatim(size: nat)
    | Ref(id: Id)
    | Composite(kind: Value, items: seq<Item>)

  /** A list element has no key. */
  datatype Item = Item(key: Option<string>, value: Value)

  /** What a pointer, map or slice leads to: the target, or the content as a composite. */
  datatype Object = Pointer(visit: Visit, target: Value) | Container(visit: Visit, content: Value)

  type Heap = map<Id, Object>

  /** The copy. The circular marker is kept apart from ordinary text, so that statements
      can speak of it; in Go both are strings. */
  datatype Out =
    | Null
    | OutText(text: string)
    | Marker(text: string)
    | OutScalar(value: Value)
    | Group(outs: seq<OutItem>)

  datatype OutItem = OutItem(key: Option<string>, out: Out)

  /** `Hangs`: the walk entered a loop that never ends. */
  datatype Result<+T> = Done(out: T, remaining: nat) | Hangs

  const CIRCULAR := "[circular]"
  const BUDGET: nat := 65536

  function Contents(o: Object): Value {
    match o
    case Pointer(_, target) => target
    case Container(_, content) => content
  }

  function Visits(h: Heap): set<Visit> {
    set id | id in h :: h[id].visit
  }

  // ----- reflectedString -----

  predicate IsHop(h: Heap, v: Value) {
    v.Ref? && v.id in h && h[v.id].Pointer?
  }

  /** The value at the end of a chain of pointers; None when the chain never ends. */
  function ChainEnd(h: Heap, v: Value, passed: set<Id>): Option<Value>
    decreases h.Keys - passed
  {
    if !IsHop(h, v) then Some(v)
    else if v.id in passed then None
    else ChainEnd(h, h[v.id].target, passed + {v.id})
  }

  /** What reflectedString returns; None when its loop never ends. */
  function ReflectedString(h: Heap, v: Value): Option<string> {
    match ChainEnd(h, v, {})
    case None => None
    case Some(end) => Some(if end.Text? || end.Number? then end.text else "")
  }

  /** The loop of reflectedString ends after exactly n hops. */
  ghost predicate EndsAfter(h: Heap, v: Value, n: nat)
    decreases n
  {
    if n == 0 then !IsHop(h, v) else IsHop(h, v) && EndsAfter(h, h[v.id].target, n - 1)
  }

  ghost predicate Endless(h: Heap, v: Value) {
    forall n: nat :: !EndsAfter(h, v, n)
  }

  lemma {:induction false} EndsOnce(h: Heap, v: Value, m: nat, n: nat)
    requires EndsAfter(h, v, m) && EndsAfter(h, v, n)
    ensures m == n
    decreases m
  {
    if m > 0 && n > 0 { EndsOnce(h, h[v.id].target, m - 1, n - 1); }
  }

  ghost predicate EndsLater(h: Heap, v: Value, n: nat) {
    exists m: nat :: m > n && EndsAfter(h, v, m)
  }

  lemma {:induction false} EndingChainIsFollowed(h: Heap, v: Value, n: nat, passed: set<Id>)
    requires EndsAfter(h, v, n)
    requires forall id :: id in passed ==> EndsLater(h, Ref(id), n)
    ensures ChainEnd(h, v, passed).Some?
    decreases n
  {
    if n > 0 {
      if v.id in passed {
        var m: nat :| m > n && EndsAfter(h, Ref(v.id), m);
        EndsOnce(h, v, m, n);
      }
      forall id | id in passed + {v.id}
        ensures EndsLater(h, Ref(id), n - 1)
      {
        if id == v.id {
          assert v == Ref(id);
        } else {
          var m: nat :| m > n && EndsAfter(h, Ref(id), m);
        }
      }
      EndingChainIsFollowed(h, h[v.id].target, n - 1, passed + {v.id});
    }
  }

  lemma {:induction false} FollowedChainEnds(h: Heap, v: Value, passed: set<Id>) returns (n: nat)
    requires ChainEnd(h, v, passed).Some?
    ensures EndsAfter(h, v, n)
    decreases h.Keys - passed
  {
    if IsHop(h, v) {
      n := FollowedChainEnds(h, h[v.id].target, passed + {v.id});
      n := n + 1;
    } else {
      n := 0;
    }
  }

  /** reflectedString loops forever exactly on values whose pointers never lead out. */
  lemma HangsExactlyOnEndless(h: Heap, v: Value)
    ensures ReflectedString(h, v).None? <==> Endless(h, v)
  {
    if ChainEnd(h, v, {}).Some? {
      var n := FollowedChainEnds(h, v, {});
    } else if n: nat :| EndsAfter(h, v, n) {
      EndingChainIsFollowed(h, v, n, {});
    }
  }

  // ----- The walk -----

  function Cost(key: Option<string>): nat {
    2 + if key.Some? then |key.value| else 0
  }

  /** A field whose content is replaced wholesale. Only keyed items are looked at. */
  predicate IsBinaryField(key: Option<string>, objectType: string, reflected: string) {
    && key.Some? && reflected != ""
    && (key.value == "blob" || (key.value == "data" && (objectType == "image" || objectType == "audio")))
  }

  /** The string a field is inspected by; list elements are not inspected. */
  function Inspected(h: Heap, item: Item): Option<string> {
    if item.key.Some? then ReflectedString(h, item.value) else Some("")
  }

  function SanitizeValue(h: Heap, v: Value, seen: set<Visit>, remaining: nat): Result<Out>
    decreases Visits(h) - seen, v, 1
  {
    match v
    case Nil => Done(Null, remaining)
    case Text(text) =>
      var (t, r) := SanitizeString(text, remaining);
      Done(OutText(t), r)
    case Number(_) => Done(OutScalar(v), remaining)
    case Scalar(_) => Done(OutScalar(v), remaining)
    case Verbatim(_) => Done(OutScalar(v), remaining)
    case Ref(id) =>
      if id !in h then Done(Null, remaining)
      else if h[id].visit in seen then
        var (t, r) := SanitizeString(CIRCULAR, remaining);
        Done(Marker(t), r)
      else
        assert h[id].visit in Visits(h);
        SanitizeValue(h, Contents(h[id]), seen + {h[id].visit}, remaining)
    case Composite(kind, items) =>
      match ReflectedString(h, kind)
      case None => Hangs
      case Some(objectType) =>
        match SanitizeItems(h, items, objectType, seen, remaining)
        case Hangs => Hangs
        case Done(outs, r) => Done(Group(outs), r)
  }

  function SanitizeItem(h: Heap, item: Item, objectType: string, seen: set<Visit>, remaining: nat): Result<Out>
    decreases Visits(h) - seen, item, 0
  {
    match Inspected(h, item)
    case None => Hangs
    case Some(reflected) =>
      if IsBinaryField(item.key, objectType, reflected) then
        var (t, r) := SanitizeString(BINARY_REMOVED, remaining);
        Done(OutText(t), r)
      else
        SanitizeValue(h, item.value, seen, remaining)
  }

  function SanitizeItems(h: Heap, items: seq<Item>, objectType: string, seen: set<Visit>, remaining: nat): Result<seq<OutItem>>
    decreases Visits(h) - seen, items, 0
  {
    if items == [] then Done([], remaining)
    else if remaining < Cost(items[0].key) then Done([], 0)
    else
      match SanitizeItem(h, items[0], objectType, seen, remaining - Cost(items[0].key))
      case Hangs => Hangs
      case Done(out, r) =>
        var first := [OutItem(items[0].key, out)];
        if r == 0 then Done(first, 0)
        else
          match SanitizeItems(h, items[1..], objectType, seen, r)
          case Hangs => Hangs
          case Done(outs, r') => Done(first + outs, r')
  }

  // ----- The budget -----

  /** String bytes, key bytes plus 2 per field, 2 per list element. */
  function Weight(out: Out): nat {
    match out
    case OutText(text) => |text|
    case Marker(text) => |text|
    case Group(outs) => WeightOf(outs)
    case _ => 0
  }

  function WeightOf(outs: seq<OutItem>): nat {
    if outs == [] then 0
    else ItemWeight(outs[0]) + WeightOf(outs[1..])
  }

  function ItemWeight(o: OutItem): nat {
    2 + (if o.key.Some? then |o.key.value| else 0) + Weight(o.out)
  }

  function Nodes(out: Out): nat {
    1 + if out.Group? then NodesOf(out.outs) else 0
  }

  function NodesOf(outs: seq<OutItem>): nat {
    if outs == [] then 0
    else ItemNodes(outs[0]) + NodesOf(outs[1..])
  }

  function ItemNodes(o: OutItem): nat {
    Nodes(o.out)
  }

  /** Every unit of weight in the copy was paid for from the budget, and while budget is left
      nothing else was. */
  lemma {:induction false} BudgetCoversValue(h: Heap, v: Value, seen: set<Visit>, remaining: nat)
    ensures var r := SanitizeValue(h, v, seen, remaining);
      r.Done? ==> Weight(r.out) + r.remaining <= remaining && (r.remaining > 0 ==> Weight(r.out) + r.remaining == remaining)
    decreases Visits(h) - seen, v, 1
  {
    match v
    case Text(text) => OutputFits(text, remaining);
    case Ref(id) =>
      if id in h {
        if h[id].visit in seen {
          OutputFits(CIRCULAR, remaining);
        } else {
          assert h[id].visit in Visits(h);
          BudgetCoversValue(h, Contents(h[id]), seen + {h[id].visit}, remaining);
        }
      }
    case Composite(kind, items) =>
      if ReflectedString(h, kind).Some? {
        BudgetCoversItems(h, items, ReflectedString(h, kind).value, seen, remaining);
      }
    case _ =>
  }

  lemma {:induction false} BudgetCoversItem(h: Heap, item: Item, objectType: string, seen: set<Visit>, remaining: nat)
    ensures var r := SanitizeItem(h, item, objectType, seen, remaining);
      r.Done? ==> Weight(r.out) + r.remaining <= remaining && (r.remaining > 0 ==> Weight(r.out) + r.remaining == remaining)
    decreases Visits(h) - seen, item, 0
  {
    BudgetCoversValue(h, item.value, seen, remaining);
    OutputFits(BINARY_REMOVED, remaining);
  }

  lemma {:induction false} BudgetCoversItems(h: Heap, items: seq<Item>, objectType: string, seen: set<Visit>, remaining: nat)
    ensures var r := SanitizeItems(h, items, objectType, seen, remaining);
      r.Done? ==> WeightOf(r.out) + r.remaining <= remaining && (r.remaining > 0 ==> WeightOf(r.out) + r.remaining == remaining)
    decreases Visits(h) - seen, items, 0
  {
    if items != [] && remaining >= Cost(items[0].key) {
      var left := remaining - Cost(items[0].key);
      BudgetCoversItem(h, items[0], objectType, seen, left);
      var one := SanitizeItem(h, items[0], objectType, seen, left);
      if one.Done? && one.remaining > 0 {
        BudgetCoversItems(h, items[1..], objectType, seen, one.remaining);
        var rest := SanitizeItems(h, items[1..], objectType, seen, one.remaining);
        if rest.Done? {
          var outs := [OutItem(items[0].key, one.out)] + rest.out;
          assert outs[1..] == rest.out;
        }
      }
    }
  }

  lemma {:induction false} NodesAreWeighed(out: Out)
    ensures 2 * (Nodes(out) - 1) <= Weight(out)
  {
    if out.Group? { NodesOfAreWeighed(out.outs); }
  }

  lemma {:induction false} NodesOfAreWeighed(outs: seq<OutItem>)
    ensures 2 * NodesOf(outs) <= WeightOf(outs)
  {
    if outs != [] {
      ItemNodesAreWeighed(outs[0]);
      NodesOfAreWeighed(outs[1..]);
    }
  }

  lemma {:induction false} ItemNodesAreWeighed(o: OutItem)
    ensures 2 * ItemNodes(o) <= ItemWeight(o)
  {
    NodesAreWeighed(o.out);
  }

  /** What is charged for the copy of any graph, however large it unfolds, fits the budget, and
      the copy has at most 1 + 65536/2 nodes, a value passed through counting as one. */
  lemma CopyIsBounded(h: Heap, v: Value)
    ensures var r := SanitizeValue(h, v, {}, BUDGET);
      r.Done? ==> Weight(r.out) <= 65536 && Nodes(r.out) <= 32769
  {
    BudgetCoversValue(h, v, {}, BUDGET);
    if SanitizeValue(h, v, {}, BUDGET).Done? { NodesAreWeighed(SanitizeValue(h, v, {}, BUDGET).out); }
  }

  // ----- The Go map of a keyed group -----

  predicate HasKey(o: OutItem, key: string) {
    o.key == Some(key)
  }

  /** What the map holds once the keyed items have been written to it in order. */
  function Entries(outs: seq<OutItem>): map<string, Out> {
    if outs == [] then map[]
    else
      var before, o := Entries(outs[..|outs| - 1]), outs[|outs| - 1];
      if o.key.Some? then before[o.key.value := o.out] else before
  }

  /** The map has the keys that were written, each with what was written to it last. */
  lemma {:induction false} EntriesKeepTheLast(outs: seq<OutItem>, key: string)
    ensures key in Entries(outs) <==> exists i :: 0 <= i < |outs| && HasKey(outs[i], key)
    ensures key in Entries(outs) ==>
      exists i :: 0 <= i < |outs| && HasKey(outs[i], key) && Entries(outs)[key] == outs[i].out
                  && forall j :: i < j < |outs| ==> !HasKey(outs[j], key)
  {
    if outs != [] {
      var n := |outs| - 1;
      var front := outs[..n];
      EntriesKeepTheLast(front, key);
      if HasKey(outs[n], key) {
        assert Entries(outs)[key] == outs[n].out;
      } else if key in Entries(front) {
        var i :| 0 <= i < |front| && HasKey(front[i], key) && Entries(front)[key] == front[i].out
                 && forall j :: i < j < |front| ==> !HasKey(front[j], key);
        assert HasKey(outs[i], key);
        forall j | i < j < |outs|
          ensures !HasKey(outs[j], key)
        {
          assert j < n ==> !HasKey(front[j], key);
        }
      } else {
        forall i | 0 <= i < |outs|
          ensures !HasKey(outs[i], key)
        {
          assert i < n ==> !HasKey(front[i], key);
        }
      }
    }
  }
}

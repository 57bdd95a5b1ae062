/** Which graphs the sanitizer's walk ends on, and which values it marks as circular. */
module SanitizeCycles {
  import opened Wrappers
  import opened SanitizeText
  import opened Sanitize
  import opened Utf8

  // ----- The graph the walk follows, without budget -----

  /** The objects v leads to directly: those in replaced binary fields are not entered. */
  function Refs(h: Heap, v: Value): set<Id>
    decreases v, 1
  {
    match v
    case Ref(id) => {id}
    case Composite(kind, items) =>
      if ReflectedString(h, kind).None? then {} else RefsOf(h, items, ReflectedString(h, kind).value)
    case _ => {}
  }

  function ItemRefs(h: Heap, item: Item, objectType: string): set<Id>
    decreases item, 0
  {
    var inspected := Inspected(h, item);
    if inspected.None? || IsBinaryField(item.key, objectType, inspected.value) then {} else Refs(h, item.value)
  }

  function RefsOf(h: Heap, items: seq<Item>, objectType: string): set<Id>
    decreases items, 0
  {
    if items == [] then {} else ItemRefs(h, items[0], objectType) + RefsOf(h, items[1..], objectType)
  }

  /** A field of v, or its type field, is a chain of pointers without end. */
  predicate Stuck(h: Heap, v: Value)
    decreases v, 1
  {
    v.Composite? &&
    (ReflectedString(h, v.kind).None? || StuckIn(h, v.items, ReflectedString(h, v.kind).value))
  }

  predicate ItemStuck(h: Heap, item: Item, objectType: string)
    decreases item, 0
  {
    var inspected := Inspected(h, item);
    inspected.None? || (!IsBinaryField(item.key, objectType, inspected.value) && Stuck(h, item.value))
  }

  predicate StuckIn(h: Heap, items: seq<Item>, objectType: string)
    decreases items, 0
  {
    items != [] && (ItemStuck(h, items[0], objectType) || StuckIn(h, items[1..], objectType))
  }

  /** The objects p, in turn, each led to by the one before it and the first by `refs`;
      none is recognised as one already on the path. */
  predicate Walks(h: Heap, refs: set<Id>, seen: set<Visit>, p: seq<Id>)
    decreases |p|
  {
    p == [] ||
    (p[0] in refs && p[0] in h && h[p[0]].visit !in seen
     && Walks(h, Refs(h, Contents(h[p[0]])), seen + {h[p[0]].visit}, p[1..]))
  }

  function RefsAt(h: Heap, refs: set<Id>, p: seq<Id>): set<Id> {
    if p == [] then refs
    else if p[|p| - 1] in h then Refs(h, Contents(h[p[|p| - 1]])) else {}
  }

  function SeenAt(h: Heap, seen: set<Visit>, p: seq<Id>): set<Visit> {
    seen + set id | id in p && id in h :: h[id].visit
  }

  /** At the end of p the walk meets the object `id`, which it recognises as one of p. */
  predicate Revisits(h: Heap, refs: set<Id>, seen: set<Visit>, p: seq<Id>, id: Id) {
    Walks(h, refs, seen, p) && id in RefsAt(h, refs, p) && id in h && h[id].visit in SeenAt(h, seen, p)
  }

  /** At the end of p the walk inspects a chain of pointers without end. */
  predicate GetsStuck(h: Heap, refs: set<Id>, here: bool, seen: set<Visit>, p: seq<Id>) {
    Walks(h, refs, seen, p)
    && if p == [] then here else p[|p| - 1] in h && Stuck(h, Contents(h[p[|p| - 1]]))
  }

  predicate HasMark(out: Out) {
    out.Marker? || (out.Group? && HasMarkIn(out.outs))
  }

  predicate HasMarkIn(outs: seq<OutItem>) {
    outs != [] && (ItemHasMark(outs[0]) || HasMarkIn(outs[1..]))
  }

  predicate ItemHasMark(o: OutItem) {
    HasMark(o.out)
  }

  // ----- One more step in front of a path -----

  lemma RevisitsStep(h: Heap, refs: set<Id>, seen: set<Visit>, p: seq<Id>, id: Id)
    requires p != []
    ensures Revisits(h, refs, seen, p, id) <==>
      p[0] in refs && p[0] in h && h[p[0]].visit !in seen
      && Revisits(h, Refs(h, Contents(h[p[0]])), seen + {h[p[0]].visit}, p[1..], id)
  {
    if p[0] in h {
      assert SeenAt(h, seen, p) == SeenAt(h, seen + {h[p[0]].visit}, p[1..]);
      assert |p| > 1 ==> p[1..][|p| - 2] == p[|p| - 1];
    }
  }

  lemma StuckStep(h: Heap, refs: set<Id>, here: bool, seen: set<Visit>, p: seq<Id>)
    requires p != []
    ensures GetsStuck(h, refs, here, seen, p) <==>
      p[0] in refs && p[0] in h && h[p[0]].visit !in seen
      && GetsStuck(h, Refs(h, Contents(h[p[0]])), Stuck(h, Contents(h[p[0]])), seen + {h[p[0]].visit}, p[1..])
  {
    assert |p| > 1 ==> p[1..][|p| - 2] == p[|p| - 1];
  }

  // ----- From the walk to the graph -----

  /** A marker stands for a revisit. */
  lemma {:induction false} MarkMeansRevisit(h: Heap, v: Value, seen: set<Visit>, remaining: nat)
    returns (p: seq<Id>, id: Id)
    requires SanitizeValue(h, v, seen, remaining).Done? && HasMark(SanitizeValue(h, v, seen, remaining).out)
    ensures Revisits(h, Refs(h, v), seen, p, id)
    decreases Visits(h) - seen, v, 1
  {
    match v
    case Ref(r) =>
      if h[r].visit in seen {
        p, id := [], r;
      } else {
        assert h[r].visit in Visits(h);
        p, id := MarkMeansRevisit(h, Contents(h[r]), seen + {h[r].visit}, remaining);
        assert ([r] + p)[1..] == p;
        RevisitsStep(h, {r}, seen, [r] + p, id);
        p := [r] + p;
      }
    case Composite(kind, items) =>
      p, id := MarkInItems(h, items, ReflectedString(h, kind).value, seen, remaining);
  }

  lemma {:induction false} MarkInItem(h: Heap, item: Item, objectType: string, seen: set<Visit>, remaining: nat)
    returns (p: seq<Id>, id: Id)
    requires SanitizeItem(h, item, objectType, seen, remaining).Done?
    requires HasMark(SanitizeItem(h, item, objectType, seen, remaining).out)
    ensures Revisits(h, ItemRefs(h, item, objectType), seen, p, id)
    decreases Visits(h) - seen, item, 0
  {
    p, id := MarkMeansRevisit(h, item.value, seen, remaining);
  }

  lemma {:induction false} MarkInItems(h: Heap, items: seq<Item>, objectType: string, seen: set<Visit>, remaining: nat)
    returns (p: seq<Id>, id: Id)
    requires SanitizeItems(h, items, objectType, seen, remaining).Done?
    requires HasMarkIn(SanitizeItems(h, items, objectType, seen, remaining).out)
    ensures Revisits(h, RefsOf(h, items, objectType), seen, p, id)
    decreases Visits(h) - seen, items, 0
  {
    var one := SanitizeItem(h, items[0], objectType, seen, remaining - Cost(items[0].key));
    if HasMark(one.out) {
      p, id := MarkInItem(h, items[0], objectType, seen, remaining - Cost(items[0].key));
    } else {
      var single := [OutItem(items[0].key, one.out)];
      assert single[1..] == [] && !ItemHasMark(single[0]);
      assert !HasMarkIn(single);
      assert one.remaining > 0;
      var rest := SanitizeItems(h, items[1..], objectType, seen, one.remaining);
      assert ([OutItem(items[0].key, one.out)] + rest.out)[1..] == rest.out;
      p, id := MarkInItems(h, items[1..], objectType, seen, one.remaining);
    }
  }

  /** A walk that never ends is stuck in reflectedString. */
  lemma {:induction false} HangMeansStuck(h: Heap, v: Value, seen: set<Visit>, remaining: nat) returns (p: seq<Id>)
    requires SanitizeValue(h, v, seen, remaining).Hangs?
    ensures GetsStuck(h, Refs(h, v), Stuck(h, v), seen, p)
    decreases Visits(h) - seen, v, 1
  {
    match v
    case Ref(r) =>
      assert h[r].visit in Visits(h);
      p := HangMeansStuck(h, Contents(h[r]), seen + {h[r].visit}, remaining);
      assert ([r] + p)[1..] == p;
      StuckStep(h, {r}, false, seen, [r] + p);
      p := [r] + p;
    case Composite(kind, items) =>
      if ReflectedString(h, kind).None? {
        p := [];
      } else {
        p := HangInItems(h, items, ReflectedString(h, kind).value, seen, remaining);
      }
  }

  lemma {:induction false} HangInItem(h: Heap, item: Item, objectType: string, seen: set<Visit>, remaining: nat)
    returns (p: seq<Id>)
    requires SanitizeItem(h, item, objectType, seen, remaining).Hangs?
    ensures GetsStuck(h, ItemRefs(h, item, objectType), ItemStuck(h, item, objectType), seen, p)
    decreases Visits(h) - seen, item, 0
  {
    if Inspected(h, item).None? {
      p := [];
    } else {
      p := HangMeansStuck(h, item.value, seen, remaining);
    }
  }

  lemma {:induction false} HangInItems(h: Heap, items: seq<Item>, objectType: string, seen: set<Visit>, remaining: nat)
    returns (p: seq<Id>)
    requires SanitizeItems(h, items, objectType, seen, remaining).Hangs?
    ensures GetsStuck(h, RefsOf(h, items, objectType), StuckIn(h, items, objectType), seen, p)
    decreases Visits(h) - seen, items, 0
  {
    var one := SanitizeItem(h, items[0], objectType, seen, remaining - Cost(items[0].key));
    if one.Hangs? {
      p := HangInItem(h, items[0], objectType, seen, remaining - Cost(items[0].key));
    } else {
      p := HangInItems(h, items[1..], objectType, seen, one.remaining);
    }
  }

  // ----- From the graph to the walk, while the budget lasts -----

  /** While the budget lasts, the walk enters every object v leads to, and what it marks
      there stays in the copy. */
  lemma {:induction false} WalkEnters(h: Heap, v: Value, seen: set<Visit>, remaining: nat, id: Id) returns (left: nat)
    requires SanitizeValue(h, v, seen, remaining).Done? && SanitizeValue(h, v, seen, remaining).remaining > 0
    requires id in Refs(h, v)
    ensures Entered(h, id, seen, left, HasMark(SanitizeValue(h, v, seen, remaining).out))
    decreases Visits(h) - seen, v, 1
  {
    match v
    case Ref(_) => left := remaining;
    case Composite(kind, items) =>
      left := WalkEntersItems(h, items, ReflectedString(h, kind).value, seen, remaining, id);
  }

  predicate Entered(h: Heap, id: Id, seen: set<Visit>, left: nat, marked: bool) {
    var r := SanitizeValue(h, Ref(id), seen, left);
    r.Done? && r.remaining > 0 && (HasMark(r.out) ==> marked)
  }

  lemma {:induction false} WalkEntersItem(h: Heap, item: Item, objectType: string, seen: set<Visit>, remaining: nat, id: Id)
    returns (left: nat)
    requires SanitizeItem(h, item, objectType, seen, remaining).Done?
    requires SanitizeItem(h, item, objectType, seen, remaining).remaining > 0
    requires id in ItemRefs(h, item, objectType)
    ensures Entered(h, id, seen, left, HasMark(SanitizeItem(h, item, objectType, seen, remaining).out))
    decreases Visits(h) - seen, item, 0
  {
    left := WalkEnters(h, item.value, seen, remaining, id);
  }

  lemma {:induction false} WalkEntersItems(h: Heap, items: seq<Item>, objectType: string, seen: set<Visit>, remaining: nat, id: Id)
    returns (left: nat)
    requires SanitizeItems(h, items, objectType, seen, remaining).Done?
    requires SanitizeItems(h, items, objectType, seen, remaining).remaining > 0
    requires id in RefsOf(h, items, objectType)
    ensures Entered(h, id, seen, left, HasMarkIn(SanitizeItems(h, items, objectType, seen, remaining).out))
    decreases Visits(h) - seen, items, 0
  {
    var one := SanitizeItem(h, items[0], objectType, seen, remaining - Cost(items[0].key));
    var rest := SanitizeItems(h, items[1..], objectType, seen, one.remaining);
    assert ([OutItem(items[0].key, one.out)] + rest.out)[1..] == rest.out;
    if id in ItemRefs(h, items[0], objectType) {
      left := WalkEntersItem(h, items[0], objectType, seen, remaining - Cost(items[0].key), id);
    } else {
      left := WalkEntersItems(h, items[1..], objectType, seen, one.remaining, id);
    }
  }

  lemma {:induction false} NotStuckHere(h: Heap, v: Value, seen: set<Visit>, remaining: nat)
    requires SanitizeValue(h, v, seen, remaining).Done? && SanitizeValue(h, v, seen, remaining).remaining > 0
    ensures !Stuck(h, v)
    decreases Visits(h) - seen, v, 1
  {
    if v.Composite? {
      NotStuckInItems(h, v.items, ReflectedString(h, v.kind).value, seen, remaining);
    }
  }

  lemma {:induction false} NotStuckInItem(h: Heap, item: Item, objectType: string, seen: set<Visit>, remaining: nat)
    requires SanitizeItem(h, item, objectType, seen, remaining).Done?
    requires SanitizeItem(h, item, objectType, seen, remaining).remaining > 0
    ensures !ItemStuck(h, item, objectType)
    decreases Visits(h) - seen, item, 0
  {
    if !IsBinaryField(item.key, objectType, Inspected(h, item).value) {
      NotStuckHere(h, item.value, seen, remaining);
    }
  }

  lemma {:induction false} NotStuckInItems(h: Heap, items: seq<Item>, objectType: string, seen: set<Visit>, remaining: nat)
    requires SanitizeItems(h, items, objectType, seen, remaining).Done?
    requires SanitizeItems(h, items, objectType, seen, remaining).remaining > 0
    ensures !StuckIn(h, items, objectType)
    decreases Visits(h) - seen, items, 0
  {
    if items != [] {
      var one := SanitizeItem(h, items[0], objectType, seen, remaining - Cost(items[0].key));
      NotStuckInItem(h, items[0], objectType, seen, remaining - Cost(items[0].key));
      NotStuckInItems(h, items[1..], objectType, seen, one.remaining);
    }
  }

  lemma {:induction false} RevisitIsMarked(h: Heap, v: Value, seen: set<Visit>, remaining: nat, p: seq<Id>, id: Id)
    requires SanitizeValue(h, v, seen, remaining).Done? && SanitizeValue(h, v, seen, remaining).remaining > 0
    requires Revisits(h, Refs(h, v), seen, p, id)
    ensures HasMark(SanitizeValue(h, v, seen, remaining).out)
    decreases |p|
  {
    var next := if p == [] then id else p[0];
    var left := WalkEnters(h, v, seen, remaining, next);
    if p == [] {
      assert SeenAt(h, seen, []) == seen;
    } else {
      RevisitsStep(h, Refs(h, v), seen, p, id);
      RevisitIsMarked(h, Contents(h[next]), seen + {h[next].visit}, left, p[1..], id);
    }
  }

  lemma {:induction false} DoneIsNotStuck(h: Heap, v: Value, seen: set<Visit>, remaining: nat, p: seq<Id>)
    requires SanitizeValue(h, v, seen, remaining).Done? && SanitizeValue(h, v, seen, remaining).remaining > 0
    ensures !GetsStuck(h, Refs(h, v), Stuck(h, v), seen, p)
    decreases |p|
  {
    NotStuckHere(h, v, seen, remaining);
    if p != [] {
      StuckStep(h, Refs(h, v), Stuck(h, v), seen, p);
      if p[0] in Refs(h, v) && p[0] in h && h[p[0]].visit !in seen {
        var left := WalkEnters(h, v, seen, remaining, p[0]);
        DoneIsNotStuck(h, Contents(h[p[0]]), seen + {h[p[0]].visit}, left, p[1..]);
      }
    }
  }

  // ----- The theorems -----

  ghost predicate SomeRevisit(h: Heap, v: Value) {
    exists p: seq<Id>, id: Id :: Revisits(h, Refs(h, v), {}, p, id)
  }

  ghost predicate SomeStuck(h: Heap, v: Value) {
    exists p: seq<Id> :: GetsStuck(h, Refs(h, v), Stuck(h, v), {}, p)
  }

  /** The walk ends on every graph, cyclic or not, in which no inspected field is a chain of
      pointers without end; and where there is one it ends only by running out of budget. */
  lemma EndsUnlessStuck(h: Heap, v: Value, remaining: nat)
    ensures !SomeStuck(h, v) ==> SanitizeValue(h, v, {}, remaining).Done?
    ensures SomeStuck(h, v) ==> var r := SanitizeValue(h, v, {}, remaining); r.Hangs? || r.remaining == 0
  {
    var r := SanitizeValue(h, v, {}, remaining);
    if r.Hangs? {
      var p := HangMeansStuck(h, v, {}, remaining);
    } else if r.remaining > 0 {
      forall p
        ensures !GetsStuck(h, Refs(h, v), Stuck(h, v), {}, p)
      {
        DoneIsNotStuck(h, v, {}, remaining, p);
      }
    }
  }

  /** A marker appears only for an object recognised as one on its path, and while the
      budget lasts for every such object. */
  lemma MarksExactlyRevisits(h: Heap, v: Value, remaining: nat)
    ensures var r := SanitizeValue(h, v, {}, remaining);
      && (r.Done? && HasMark(r.out) ==> SomeRevisit(h, v))
      && (r.Done? && r.remaining > 0 ==> (HasMark(r.out) <==> SomeRevisit(h, v)))
  {
    var r := SanitizeValue(h, v, {}, remaining);
    if r.Done? && HasMark(r.out) {
      var p, id := MarkMeansRevisit(h, v, {}, remaining);
    } else if r.Done? && r.remaining > 0 {
      if p: seq<Id>, id: Id :| Revisits(h, Refs(h, v), {}, p, id) {
        RevisitIsMarked(h, v, {}, remaining, p, id);
      }
    }
  }

  // ----- Exactly, over all budgets -----

  /** More than the whole copy of v can cost. */
  function Need(h: Heap, v: Value, seen: set<Visit>): nat
    decreases Visits(h) - seen, v, 1
  {
    match v
    case Text(text) => |text|
    case Ref(id) =>
      if id !in h then 0
      else if h[id].visit in seen then |CIRCULAR|
      else
        assert h[id].visit in Visits(h);
        Need(h, Contents(h[id]), seen + {h[id].visit})
    case Composite(_, items) => NeedOf(h, items, seen)
    case _ => 0
  }

  function ItemNeed(h: Heap, item: Item, seen: set<Visit>): nat
    decreases Visits(h) - seen, item, 0
  {
    Cost(item.key) + |BINARY_REMOVED| + Need(h, item.value, seen)
  }

  function NeedOf(h: Heap, items: seq<Item>, seen: set<Visit>): nat
    decreases Visits(h) - seen, items, 0
  {
    if items == [] then 0 else ItemNeed(h, items[0], seen) + NeedOf(h, items[1..], seen)
  }

  lemma CleaningShortens(value: string, remaining: nat)
    ensures |SanitizeString(value, remaining).0| <= |value|
    ensures SanitizeString(value, remaining).1 == remaining - |SanitizeString(value, remaining).0|
  {
    var bounded := Truncated(value, remaining);
    OutputFits(value, remaining);
    ReplacingShortens(bounded);
    if IsBase64Payload(bounded) { PlaceholderIsNoPayload(bounded); }
  }

  /** A walk that ends has not spent more than was needed. */
  lemma {:induction false} SpendsAtMost(h: Heap, v: Value, seen: set<Visit>, remaining: nat)
    ensures var r := SanitizeValue(h, v, seen, remaining);
      r.Done? ==> r.remaining + Need(h, v, seen) >= remaining
    decreases Visits(h) - seen, v, 1
  {
    match v
    case Text(text) => CleaningShortens(text, remaining);
    case Ref(id) =>
      if id in h {
        if h[id].visit in seen {
          CleaningShortens(CIRCULAR, remaining);
        } else {
          assert h[id].visit in Visits(h);
          SpendsAtMost(h, Contents(h[id]), seen + {h[id].visit}, remaining);
        }
      }
    case Composite(kind, items) =>
      if ReflectedString(h, kind).Some? {
        SpendsAtMostOn(h, items, ReflectedString(h, kind).value, seen, remaining);
      }
    case _ =>
  }

  lemma {:induction false} SpendsAtMostOnItem(h: Heap, item: Item, objectType: string, seen: set<Visit>, remaining: nat)
    ensures var r := SanitizeItem(h, item, objectType, seen, remaining);
      r.Done? ==> r.remaining + |BINARY_REMOVED| + Need(h, item.value, seen) >= remaining
    decreases Visits(h) - seen, item, 0
  {
    SpendsAtMost(h, item.value, seen, remaining);
    CleaningShortens(BINARY_REMOVED, remaining);
  }

  lemma {:induction false} SpendsAtMostOn(h: Heap, items: seq<Item>, objectType: string, seen: set<Visit>, remaining: nat)
    ensures var r := SanitizeItems(h, items, objectType, seen, remaining);
      r.Done? ==> r.remaining + NeedOf(h, items, seen) >= remaining
    decreases Visits(h) - seen, items, 0
  {
    if items != [] && remaining >= Cost(items[0].key) {
      var left := remaining - Cost(items[0].key);
      SpendsAtMostOnItem(h, items[0], objectType, seen, left);
      var one := SanitizeItem(h, items[0], objectType, seen, left);
      if one.Done? && one.remaining > 0 {
        SpendsAtMostOn(h, items[1..], objectType, seen, one.remaining);
      }
    }
  }

  /** With more budget than the copy needs, the walk hangs exactly on a graph where it gets
      stuck, and otherwise marks exactly when an object is met again. */
  lemma AmpleBudget(h: Heap, v: Value, remaining: nat)
    requires remaining > Need(h, v, {})
    ensures var r := SanitizeValue(h, v, {}, remaining);
      && (r.Hangs? <==> SomeStuck(h, v))
      && (r.Done? ==> r.remaining > 0 && (HasMark(r.out) <==> SomeRevisit(h, v)))
  {
    SpendsAtMost(h, v, {}, remaining);
    EndsUnlessStuck(h, v, remaining);
    MarksExactlyRevisits(h, v, remaining);
  }

  /** The walk ends under every budget exactly on the graphs in which no inspected field is
      a chain of pointers without end. */
  lemma EndsExactlyUnlessStuck(h: Heap, v: Value)
    ensures (forall remaining: nat :: SanitizeValue(h, v, {}, remaining).Done?) <==> !SomeStuck(h, v)
  {
    if SomeStuck(h, v) {
      AmpleBudget(h, v, Need(h, v, {}) + 1);
      assert !SanitizeValue(h, v, {}, Need(h, v, {}) + 1).Done?;
    } else {
      forall remaining: nat
        ensures SanitizeValue(h, v, {}, remaining).Done?
      {
        EndsUnlessStuck(h, v, remaining);
      }
    }
  }

  ghost predicate MarkedWith(h: Heap, v: Value, remaining: nat) {
    var r := SanitizeValue(h, v, {}, remaining);
    r.Done? && HasMark(r.out)
  }

  /** On those graphs a marker appears under some budget exactly when the walk can meet an
      object that it recognises as one of its path. */
  lemma MarkedExactlyIfRevisited(h: Heap, v: Value)
    requires !SomeStuck(h, v)
    ensures (exists remaining: nat :: MarkedWith(h, v, remaining)) <==> SomeRevisit(h, v)
  {
    AmpleBudget(h, v, Need(h, v, {}) + 1);
    if SomeRevisit(h, v) {
      assert MarkedWith(h, v, Need(h, v, {}) + 1);
    }
    if remaining: nat :| MarkedWith(h, v, remaining) {
      MarksExactlyRevisits(h, v, remaining);
    }
  }

  /** No two objects are recognised as one. */
  ghost predicate Unaliased(h: Heap) {
    forall a, b :: a in h && b in h && h[a].visit == h[b].visit ==> a == b
  }

  /** Without aliases the object met again is a true ancestor. */
  lemma RevisitIsAncestor(h: Heap, refs: set<Id>, p: seq<Id>, id: Id)
    requires Unaliased(h) && Revisits(h, refs, {}, p, id)
    ensures id in p
  {
  }

  /** The graph under v is acyclic: along every edge the walk follows the rank goes down. */
  ghost predicate Ranked(h: Heap, rank: map<Id, nat>) {
    forall a, b :: a in h && b in h && b in Refs(h, Contents(h[a])) ==>
      a in rank && b in rank && rank[b] < rank[a]
  }

  lemma {:induction false} RankFalls(h: Heap, refs: set<Id>, seen: set<Visit>, p: seq<Id>, id: Id, rank: map<Id, nat>)
    requires Ranked(h, rank) && p != [] && Walks(h, refs, seen, p) && id in RefsAt(h, refs, p) && id in h
    ensures forall a :: a in p ==> a in rank && id in rank && rank[id] < rank[a]
    decreases |p|
  {
    var c := p[0];
    var refs' := Refs(h, Contents(h[c]));
    assert p == [c] + p[1..];
    if |p| > 1 {
      assert p[1..][|p| - 2] == p[|p| - 1];
      RankFalls(h, refs', seen + {h[c].visit}, p[1..], id, rank);
      assert p[1] in refs' && p[1] in h;
      assert p[1] == p[1..][0] && p[1] in p[1..];
    }
  }

  /** Shared values of an acyclic graph are copied each time, never marked. */
  lemma AcyclicIsNeverMarked(h: Heap, v: Value, remaining: nat, rank: map<Id, nat>)
    requires Unaliased(h) && Ranked(h, rank)
    ensures var r := SanitizeValue(h, v, {}, remaining); r.Done? ==> !HasMark(r.out)
  {
    MarksExactlyRevisits(h, v, remaining);
    if p: seq<Id>, id: Id :| Revisits(h, Refs(h, v), {}, p, id) {
      RevisitIsAncestor(h, Refs(h, v), p, id);
      RankFalls(h, Refs(h, v), {}, p, id, rank);
    }
  }

  // ----- Two inputs at the edge -----

  /** Aliases matter: a slice and a shorter slice of the same array have one type and one
      pointer. Holding the second inside the first is no cycle, but it is marked. */
  const ALIASED: Heap := map[
    0 := Container(9, Composite(Nil, [Item(None, Scalar(1)), Item(None, Ref(1))])),
    1 := Container(9, Composite(Nil, [Item(None, Scalar(1))]))
  ]

  lemma InnerSliceIsMarked(remaining: nat)
    requires remaining >= 100
    ensures var r := SanitizeItems(ALIASED, [Item(None, Ref(1))], "", {9}, remaining);
      r.Done? && HasMarkIn(r.out)
  {
    OutputFits(CIRCULAR, remaining - 2);
    hide SanitizeString;
    var one := SanitizeItem(ALIASED, Item(None, Ref(1)), "", {9}, remaining - 2);
    assert one.Done? && one.out.Marker?;
    assert [Item(None, Ref(1))][1..] == [];
  }

  lemma AliasedSliceIsMarked()
    ensures Ranked(ALIASED, map[0 := 1, 1 := 0])
    ensures SanitizeValue(ALIASED, Ref(0), {}, BUDGET).Done?
    ensures HasMark(SanitizeValue(ALIASED, Ref(0), {}, BUDGET).out)
  {
    OuterSliceIsMarked();
    hide SanitizeString, SanitizeItems;
    assert {} + {9} == {9};
  }

  lemma OuterSliceIsMarked()
    ensures var r := SanitizeItems(ALIASED, [Item(None, Scalar(1)), Item(None, Ref(1))], "", {9}, BUDGET);
      r.Done? && HasMarkIn(r.out)
  {
    var items, rest := [Item(None, Scalar(1)), Item(None, Ref(1))], [Item(None, Ref(1))];
    assert items[1..] == rest;
    InnerSliceIsMarked(BUDGET - 2);
    var tail := SanitizeItems(ALIASED, rest, "", {9}, BUDGET - 2);
    assert SanitizeItem(ALIASED, items[0], "", {9}, BUDGET - 2) == Done(OutScalar(Scalar(1)), BUDGET - 2);
    var all := SanitizeItems(ALIASED, items, "", {9}, BUDGET);
    hide SanitizeItem;
    assert all.out == [OutItem(None, OutScalar(Scalar(1)))] + tail.out;
    assert all.out[1..] == tail.out;
  }

  /** A pointer to itself in a field: the visit set is consulted too late. */
  lemma SelfPointerInFieldHangs(key: string, visit: Visit, remaining: nat)
    requires remaining >= |key| + 2
    ensures var h: Heap := map[0 := Pointer(visit, Ref(0))];
      && SanitizeValue(h, Composite(Nil, [Item(Some(key), Ref(0))]), {}, remaining).Hangs?
      && SanitizeValue(h, Ref(0), {}, remaining).Done?
  {
    var h: Heap := map[0 := Pointer(visit, Ref(0))];
    assert {} + {0} == {0};
    assert ChainEnd(h, Ref(0), {0}).None?;
    assert ReflectedString(h, Ref(0)).None?;
    assert SanitizeItem(h, Item(Some(key), Ref(0)), "", {}, remaining - |key| - 2).Hangs?;
    assert {} + {visit} == {visit};
    assert SanitizeValue(h, Ref(0), {visit}, remaining).Done?;
  }
}

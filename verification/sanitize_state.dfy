/** The sanitizer as it runs: one object holds the remaining budget and the visits of the
    current path, and the walk updates both. */
module SanitizeState {
  import opened Wrappers
  import opened SanitizeText
  import opened Sanitize

  function AsResult<T>(r: Option<T>, remaining: nat): Result<T> {
    if r.Some? then Done(r.value, remaining) else Hangs
  }

  /** What is left of a walk over items once `outs` has been produced. */
  function After(outs: seq<OutItem>, rest: Result<seq<OutItem>>): Result<seq<OutItem>> {
    match rest
    case Hangs => Hangs
    case Done(more, r) => Done(outs + more, r)
  }

  lemma AfterNothing(rest: Result<seq<OutItem>>)
    ensures After([], rest) == rest
  {
    if rest.Done? {
      assert [] + rest.out == rest.out;
    }
  }

  lemma AfterOne(outs: seq<OutItem>, next: OutItem, rest: Result<seq<OutItem>>)
    ensures After(outs, After([next], rest)) == After(outs + [next], rest)
  {
    if rest.Done? {
      assert outs + ([next] + rest.out) == (outs + [next]) + rest.out;
    }
  }

  lemma AfterAll(outs: seq<OutItem>, remaining: nat)
    ensures After(outs, Done([], remaining)) == Done(outs, remaining)
  {
    assert outs + [] == outs;
  }

  /** The loop of reflectedString. The source keeps no record of the pointers it has
      passed; None stands for its going round forever. */
  method FollowPointers(h: Heap, start: Value) returns (r: Option<string>)
    ensures r == ReflectedString(h, start)
  {
    var v, passed := start, {};
    while IsHop(h, v)
      invariant ChainEnd(h, v, passed) == ChainEnd(h, start, {})
      decreases h.Keys - passed
    {
      if v.id in passed {
        return None;
      }
      v, passed := h[v.id].target, passed + {v.id};
    }
    return Some(if v.Text? || v.Number? then v.text else "");
  }

  class SanitizationState {
    var remaining: nat
    var seen: set<Visit>

    constructor ()
      ensures remaining == 65536 && seen == {}
    {
      remaining, seen := BUDGET, {};
    }

    method Charge(units: nat) returns (ok: bool)
      modifies this`remaining
      ensures ok == (old(remaining) >= units)
      ensures remaining == if ok then old(remaining) - units else 0
    {
      if remaining < units {
        remaining := 0;
        return false;
      }
      remaining := remaining - units;
      return true;
    }

    method CleanText(value: string) returns (text: string)
      modifies this`remaining
      ensures (text, remaining) == SanitizeString(value, old(remaining))
    {
      var cleaned := Cleaned(value, remaining);
      if |cleaned| <= remaining {
        remaining := remaining - |cleaned|;
        return cleaned;
      }
      text := Utf8.Truncated(cleaned, remaining);
      remaining := 0;
    }

    /** Returns the copy; the path is as it was. None stands for a walk without end. */
    method Copy(h: Heap, v: Value) returns (out: Option<Out>)
      modifies this
      ensures AsResult(out, remaining) == SanitizeValue(h, v, old(seen), old(remaining))
      ensures out.Some? ==> seen == old(seen)
      decreases Visits(h) - seen, v, 1
    {
      match v
      case Nil => out := Some(Null);
      case Text(text) =>
        var t := CleanText(text);
        out := Some(OutText(t));
      case Number(_) => out := Some(OutScalar(v));
      case Scalar(_) => out := Some(OutScalar(v));
      case Verbatim(_) => out := Some(OutScalar(v));
      case Ref(id) =>
        if id !in h {
          return Some(Null);
        }
        var visit := h[id].visit;
        if visit in seen {
          var t := CleanText(CIRCULAR);
          return Some(Marker(t));
        }
        assert visit in Visits(h);
        seen := seen + {visit};
        out := Copy(h, Contents(h[id]));
        seen := seen - {visit};
      case Composite(kind, items) =>
        var objectType := FollowPointers(h, kind);
        if objectType.None? {
          return None;
        }
        var outs, _ := CopyItems(h, items, objectType.value);
        out := if outs.Some? then Some(Group(outs.value)) else None;
    }

    method CopyItem(h: Heap, item: Item, objectType: string) returns (out: Option<Out>)
      modifies this
      ensures AsResult(out, remaining) == SanitizeItem(h, item, objectType, old(seen), old(remaining))
      ensures out.Some? ==> seen == old(seen)
      decreases Visits(h) - seen, item, 0
    {
      var inspected := Some("");
      if item.key.Some? {
        inspected := FollowPointers(h, item.value);
      }
      if inspected.None? {
        return None;
      }
      if IsBinaryField(item.key, objectType, inspected.value) {
        var t := CleanText(BINARY_REMOVED);
        return Some(OutText(t));
      }
      out := Copy(h, item.value);
    }

    /** The loop that maps, structs and lists share. `written` is the map that it fills for a
        map or a struct; should two fields have one name, the later one replaces the earlier. */
    method CopyItems(h: Heap, items: seq<Item>, objectType: string)
      returns (outs: Option<seq<OutItem>>, written: map<string, Out>)
      modifies this
      ensures AsResult(outs, remaining) == SanitizeItems(h, items, objectType, old(seen), old(remaining))
      ensures outs.Some? ==> seen == old(seen) && written == Entries(outs.value)
      decreases Visits(h) - seen, items, 0
    {
      var done: seq<OutItem> := [];
      var i := 0;
      written := map[];
      assert items[0..] == items;
      AfterNothing(SanitizeItems(h, items, objectType, seen, remaining));
      while i < |items|
        invariant 0 <= i <= |items| && seen == old(seen) && written == Entries(done)
        invariant SanitizeItems(h, items, objectType, old(seen), old(remaining))
               == After(done, SanitizeItems(h, items[i..], objectType, seen, remaining))
      {
        ghost var rest := items[i..];
        assert rest[0] == items[i] && rest[1..] == items[i + 1..];
        var ok := Charge(Cost(items[i].key));
        if !ok {
          AfterAll(done, remaining);
          return Some(done), written;
        }
        var out := CopyItem(h, items[i], objectType);
        if out.None? {
          return None, written;
        }
        ghost var next := OutItem(items[i].key, out.value);
        if remaining == 0 {
          AfterAll(done + [next], remaining);
        } else {
          AfterOne(done, next, SanitizeItems(h, items[i + 1..], objectType, seen, remaining));
        }
        assert (done + [next])[..|done|] == done;
        done := done + [OutItem(items[i].key, out.value)];
        if items[i].key.Some? {
          written := written[items[i].key.value := out.value];
        }
        i := i + 1;
        if remaining == 0 {
          return Some(done), written;
        }
      }
      AfterAll(done, remaining);
      return Some(done), written;
    }
  }
}

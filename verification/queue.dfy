/** The bounded FIFO of queue.go. Every function below is one critical section under `mu`,
    on values; the class at the end runs the same sections on a slice backed by an array. */
module QueueCore {
  import opened Wrappers

  const CAPACITY: nat := 1000
  const BATCH_SIZE: nat := 20

  /** The fields guarded by `mu`. The signal channel is represented by the number of
      channels closed so far: a waiter that captured `generation` is woken once the
      number has moved on. */
  datatype Queue<T> = Queue(
    pending: seq<T>,
    running: bool,
    accepting: bool,
    warnedDrop: bool,
    generation: nat)

  /** What one pass of enqueue through its critical section decides. */
  datatype Admission<T> =
    | MustWait(generation: nat)
    | Refused
    | Admitted(dropped: Option<T>, warn: bool, spawn: bool)

  function NewQueue<T>(): Queue<T> {
    Queue([], false, true, false, 0)
  }

  function Notify<T>(q: Queue<T>): Queue<T> {
    q.(generation := q.generation + 1)
  }

  function Admit<T>(q: Queue<T>, item: T, await: bool): (Queue<T>, Admission<T>) {
    if await && q.accepting && |q.pending| >= CAPACITY then
      (q, MustWait(q.generation))
    else if !q.accepting then
      (q, Refused)
    else
      var overflow := !await && |q.pending| >= CAPACITY;
      var kept := if overflow then q.pending[1..] else q.pending;
      (Notify(q.(pending := kept + [item], running := true, warnedDrop := q.warnedDrop || overflow)),
       Admitted(if overflow then Some(q.pending[0]) else None, overflow && !q.warnedDrop, !q.running))
  }

  /** The worker's section: an empty batch means that the worker exits. */
  function TakeBatch<T>(q: Queue<T>): (Queue<T>, seq<T>) {
    if q.pending == [] then
      (Notify(q.(running := false)), [])
    else
      var count := if |q.pending| < BATCH_SIZE then |q.pending| else BATCH_SIZE;
      (Notify(q.(pending := q.pending[count..])), q.pending[..count])
  }

  predicate Idle<T>(q: Queue<T>) {
    !q.running && q.pending == []
  }

  function StopAccepting<T>(q: Queue<T>): Queue<T> {
    Notify(q.(accepting := false))
  }

  /** Slots before `count` are in use, the others are nil. */
  ghost predicate Tidy<T>(slots: seq<Option<T>>, count: nat) {
    && count <= |slots|
    && (forall i :: 0 <= i < count ==> slots[i].Some?)
    && (forall i :: count <= i < |slots| ==> slots[i].None?)
  }

  function Values<T>(used: seq<Option<T>>): seq<T>
    requires forall i :: 0 <= i < |used| ==> used[i].Some?
  {
    seq(|used|, i requires 0 <= i < |used| => used[i].value)
  }

  /** Shifting down by n and clearing the last n slots in use drops the first n values. */
  lemma TidyAfterDrop<T>(before: seq<Option<T>>, after: seq<Option<T>>, count: nat, n: nat)
    requires Tidy(before, count) && n <= count && |after| == |before|
    requires after[..count - n] == before[n..count] && after[count..] == before[count..]
    requires forall k :: count - n <= k < count ==> after[k].None?
    ensures Tidy(after, count - n)
    ensures Values(after[..count - n]) == Values(before[..count])[n..]
  {
    forall k | 0 <= k < count - n
      ensures after[k] == before[n + k]
    {
      assert after[k] == after[..count - n][k] == before[n..count][k];
    }
    forall k | count <= k < |after|
      ensures after[k].None?
    {
      assert after[k] == after[count..][k - count] == before[count..][k - count];
    }
  }

  /** The slice `pending` over its backing array. Slots past `count` are nil, so nothing
      that left the queue is retained by it. */
  class PrivacyQueue<T> {
    var slots: array<Option<T>>
    var count: nat
    var running: bool
    var accepting: bool
    var warnedDrop: bool
    var generation: nat

    ghost predicate Valid()
      reads this`slots, this`count, slots
    {
      Tidy(slots[..], count)
    }

    ghost function Pending(): (s: seq<T>)
      requires Valid()
      reads this`slots, this`count, slots
      ensures |s| == count
      ensures forall i :: 0 <= i < count ==> s[i] == slots[i].value
    {
      Values(slots[..count])
    }

    ghost function Abs(): Queue<T>
      requires Valid()
      reads this, slots
    {
      Queue(Pending(), running, accepting, warnedDrop, generation)
    }

    constructor ()
      ensures Valid() && fresh(slots) && Abs() == NewQueue()
    {
      slots := new Option<T>[0];
      count, running, accepting, warnedDrop, generation := 0, false, true, false, 0;
    }

    /** copy(pending, pending[n:]). */
    method ShiftDown(n: nat)
      requires n <= count <= slots.Length
      modifies slots
      ensures slots[..count - n] == old(slots[n..count]) && slots[count - n..] == old(slots[count - n..])
    {
      ghost var before := slots[..];
      var i := 0;
      while i < count - n
        invariant 0 <= i <= count - n
        invariant slots[..i] == before[n..n + i] && slots[i..] == before[i..]
        modifies slots
      {
        assert slots[i + n] == slots[i..][n] == before[i + n];
        slots[i] := slots[i + n];
        i := i + 1;
        assert slots[..i] == slots[..i - 1] + [slots[i - 1]];
      }
    }

    /** clear(pending[from:]). */
    method ClearFrom(from: nat)
      requires from <= count <= slots.Length
      modifies slots
      ensures slots[..from] == old(slots[..from]) && slots[count..] == old(slots[count..])
      ensures forall k :: from <= k < count ==> slots[k].None?
    {
      var i := from;
      while i < count
        invariant from <= i <= count
        invariant slots[..from] == old(slots[..from]) && slots[count..] == old(slots[count..])
        invariant forall k :: from <= k < i ==> slots[k].None?
        modifies slots
      {
        slots[i] := None;
        i := i + 1;
      }
    }

    /** Copy, clear and reslice. */
    method DropFront(n: nat)
      requires Valid() && n <= count
      modifies this`count, slots
      ensures Valid() && Pending() == old(Pending())[n..]
    {
      ghost var before, all := slots[..], Pending();
      assert all == Values(before[..count]) && Tidy(before, count);
      hide Pending, Valid;
      ShiftDown(n);
      ClearFrom(count - n);
      TidyAfterDrop(before, slots[..], count, n);
      count := count - n;
      assert Valid() && Pending() == Values(slots[..][..count]) by {
        TidyIsValid();
      }
    }

    lemma TidyIsValid()
      requires count <= slots.Length && Tidy(slots[..], count)
      ensures Valid() && Pending() == Values(slots[..][..count])
    {
      assert forall i :: 0 <= i < slots.Length ==> slots[i] == slots[..][i];
    }

    /** append: in place while the backing array has room, into a larger one otherwise. */
    method Append(item: T)
      requires Valid()
      modifies this`count, this`slots, slots
      ensures Valid() && (slots == old(slots) || fresh(slots))
      ensures Pending() == old(Pending()) + [item]
    {
      hide Pending;
      if count == slots.Length {
        var larger := new Option<T>[2 * count + 1](_ => None);
        var i := 0;
        while i < count
          invariant 0 <= i <= count
          invariant forall k :: 0 <= k < i ==> larger[k] == slots[k]
          invariant forall k :: i <= k < larger.Length ==> larger[k].None?
          invariant forall k :: 0 <= k < slots.Length ==> slots[k] == old(slots[k])
          modifies larger
        {
          larger[i] := slots[i];
          i := i + 1;
        }
        slots := larger;
      }
      slots[count] := Some(item);
      count := count + 1;
    }

    lemma FirstSlot()
      requires Valid() && count > 0
      ensures slots.Length > 0 && slots[0] == Some(Pending()[0])
    {
      assert slots[0] == slots[..][0];
    }

    /** One pass of enqueue through its critical section. */
    method Enter(item: T, await: bool) returns (admission: Admission<T>)
      requires Valid()
      modifies this, slots
      ensures Valid() && (slots == old(slots) || fresh(slots))
      ensures (Abs(), admission) == Admit(old(Abs()), item, await)
    {
      hide Pending, Valid;
      if await && accepting && count >= CAPACITY {
        return MustWait(generation);
      }
      if !accepting {
        return Refused;
      }
      var dropped: Option<T> := None;
      var warn := false;
      if !await && count >= CAPACITY {
        FirstSlot();
        dropped := slots[0];
        DropFront(1);
        if !warnedDrop {
          warnedDrop := true;
          warn := true;
        }
      }
      Append(item);
      var spawn := false;
      if !running {
        running := true;
        spawn := true;
      }
      generation := generation + 1;
      return Admitted(dropped, warn, spawn);
    }

    /** The critical section at the top of the worker's loop. */
    method NextBatch() returns (items: seq<T>)
      requires Valid()
      modifies this, slots
      ensures Valid() && slots == old(slots)
      ensures (Abs(), items) == TakeBatch(old(Abs()))
    {
      if count == 0 {
        running := false;
        generation := generation + 1;
        return [];
      }
      var n := if count < BATCH_SIZE then count else BATCH_SIZE;
      items := [];
      var i := 0;
      while i < n
        invariant 0 <= i <= n
        invariant items == Pending()[..i]
        modifies {}
      {
        items := items + [slots[i].value];
        i := i + 1;
      }
      DropFront(n);
      generation := generation + 1;
    }

    method CloseGate()
      requires Valid()
      modifies this
      ensures Valid() && slots == old(slots) && Abs() == StopAccepting(old(Abs()))
    {
      accepting := false;
      generation := generation + 1;
    }
  }
}

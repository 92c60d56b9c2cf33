/** The bounded circular queue, and what _get_latest_hw does with one. */
module Queues {
  import opened Common

  /** The position k places behind i in a circle of n. */
  function Wrap(i: nat, k: nat, n: nat): int {
    if i + k < n then i + k else i + k - n
  }

  /** The size items from position tail on, around the circle. */
  function Window<T>(items: seq<T>, tail: nat, size: nat): (s: seq<T>)
    requires size <= |items| && tail <= |items| && (size > 0 ==> tail < |items|)
    ensures |s| == size
  {
    seq(size, i requires 0 <= i < size => items[Wrap(tail, i, |items|)])
  }

  lemma WindowPut<T>(items: seq<T>, tail: nat, size: nat, item: T)
    requires size < |items| && tail < |items|
    ensures Window(items[Wrap(tail, size, |items|) := item], tail, size + 1) == Window(items, tail, size) + [item]
  {
  }

  lemma WindowGet<T>(items: seq<T>, tail: nat, size: nat)
    requires 0 < size <= |items| && tail < |items|
    ensures Window(items, tail, size) == [items[tail]] + Window(items, Wrap(tail, 1, |items|), size - 1)
  {
  }

  class Queue<T(0)> {
    const items: array<T>
    var size: nat
    var head: nat       // "in" in the source: where the next item goes
    var tail: nat       // "out" in the source: where the oldest item is

    ghost predicate Valid()
      reads this
    {
      && size <= items.Length
      && (items.Length == 0 ==> head == tail == 0)
      && (items.Length > 0 ==> head < items.Length && tail < items.Length && head == Wrap(tail, size, items.Length))
    }

    /** What is queued, oldest first. */
    ghost function Contents(): (s: seq<T>)
      requires Valid()
      reads this, items
      ensures |s| == size
    {
      Window(items[..], tail, size)
    }

    constructor (capacity: nat)
      ensures Valid() && Contents() == [] && items.Length == capacity && fresh(items)
    {
      items := new T[capacity];
      size, head, tail := 0, 0, 0;
    }

    /** us_queue_put once the wait is over: refused exactly when the queue is full. */
    method Put(item: T) returns (status: int)
      requires Valid()
      modifies this, items
      ensures Valid()
      ensures status < 0 <==> |old(Contents())| == items.Length
      ensures Contents() == if status < 0 then old(Contents()) else old(Contents()) + [item]
    {
      if size == items.Length {
        return -1;
      }
      WindowPut(items[..], tail, size, item);
      items[head] := item;
      ModStep(head, items.Length);
      size := size + 1;
      head := (head + 1) % items.Length;
      return 0;
    }

    /** us_queue_get once the wait is over: fails exactly when the queue is empty. */
    method Get() returns (item: Option<T>)
      requires Valid()
      modifies this
      ensures Valid()
      ensures item.None? <==> old(Contents()) == []
      ensures item.None? ==> Contents() == old(Contents())
      ensures item.Some? ==> old(Contents()) == [item.value] + Contents()
    {
      if size == 0 {
        return None;
      }
      item := Some(items[tail]);
      ModStep(tail, items.Length);
      WindowGet(items[..], tail, size);
      size := size - 1;
      tail := (tail + 1) % items.Length;
    }

    /** us_queue_is_empty, as written: it answers "not full". */
    method IsEmpty() returns (r: bool)
      requires Valid()
      ensures r <==> |Contents()| < items.Length
      ensures (r <==> Contents() == []) <==> items.Length > 0 && (|Contents()| == 0 || |Contents()| == items.Length)
    {
      r := items.Length - size != 0;
    }
  }

  lemma ModStep(i: nat, n: nat)
    requires i < n
    ensures (i + 1) % n == if i + 1 == n then 0 else i + 1
  {
  }

  // ---------------------------------------------------------------- _get_latest_hw

  /** The part of a batch that is accepted by a queue with that much room; the other puts are refused. */
  function Accepted<T>(room: nat, batch: seq<T>): (r: seq<T>)
    ensures |r| == if |batch| < room then |batch| else room
  {
    if |batch| < room then batch else batch[..room]
  }

  method PutAll<T(0)>(queue: Queue<T>, batch: seq<T>)
    requires queue.Valid()
    modifies queue, queue.items
    ensures queue.Valid()
    ensures queue.Contents() == old(queue.Contents()) + Accepted(queue.items.Length - |old(queue.Contents())|, batch)
  {
    ghost var start := queue.Contents();
    var i := 0;
    assert start == start + Accepted(queue.items.Length - |start|, batch[..0]);
    while i < |batch|
      invariant i <= |batch| && queue.Valid() && |start| <= queue.items.Length
      invariant queue.Contents() == start + Accepted(queue.items.Length - |start|, batch[..i])
    {
      AcceptedStep(start, queue.items.Length - |start|, batch, i);
      var status := queue.Put(batch[i]);
      i := i + 1;
    }
    assert batch[..|batch|] == batch;
  }

  lemma AcceptedStep<T>(start: seq<T>, room: nat, batch: seq<T>, i: nat)
    requires i < |batch|
    ensures start + Accepted(room, batch[..i + 1])
      == if i < room then start + Accepted(room, batch[..i]) + [batch[i]] else start + Accepted(room, batch[..i])
  {
  }

  /** How the call ends: what it returns, what it let go on the way, what it leaves queued. */
  datatype Outcome<T> = Outcome(item: T, dropped: seq<T>, rest: seq<T>)

  /**
   The loop with `item` in hand and `rest` queued: arrivals[k] is what producers put between
   the k-th look at the queue and the get before it.  A full queue makes the caller let go of
   its item, and puts between such a look and the next get are refused; once the producers
   are silent the queue is not full after a get.
   */
  function Settle<T>(item: T, rest: seq<T>, capacity: nat, arrivals: seq<seq<T>>): (o: Outcome<T>)
    requires |rest| < capacity
    decreases |arrivals|
  {
    if arrivals == [] then Outcome(item, [], rest)
    else
      var q := rest + Accepted(capacity - |rest|, arrivals[0]);
      if |q| < capacity then Outcome(item, [], q)
      else
        var o := Settle(q[0], q[1..], capacity, arrivals[1..]);
        After([item], o)
  }

  /** One round: the arrivals, the look at the queue and, if it is full, the next get. */
  method Round<T(0)>(queue: Queue<T>, item: T, batch: seq<T>) returns (finished: bool, item': T)
    requires queue.Valid() && |queue.Contents()| < queue.items.Length
    modifies queue, queue.items
    ensures queue.Valid() && |queue.Contents()| < queue.items.Length
    ensures var q := old(queue.Contents()) + Accepted(queue.items.Length - |old(queue.Contents())|, batch);
      && (finished <==> |q| < queue.items.Length)
      && (finished ==> item' == item && queue.Contents() == q)
      && (!finished ==> [item'] + queue.Contents() == q)
  {
    PutAll(queue, batch);
    finished := queue.IsEmpty();
    item' := item;
    if !finished {
      var got := queue.Get();
      item' := got.value;
    }
  }

  /** An outcome when some items are gone already. */
  function After<T>(dropped: seq<T>, o: Outcome<T>): Outcome<T> {
    o.(dropped := dropped + o.dropped)
  }

  /** After a look at a queue that is not full, the caller keeps its item. */
  lemma Stop<T>(item: T, rest: seq<T>, capacity: nat, arrivals: seq<seq<T>>, dropped: seq<T>)
    requires |rest| < capacity && arrivals != [] && |rest| + |arrivals[0]| < capacity
    ensures After(dropped, Settle(item, rest, capacity, arrivals)) == Outcome(item, dropped, rest + arrivals[0])
  {
  }

  /** After a look at a full queue, with `dropped` gone before, the caller goes on with the next item. */
  lemma LetGo<T>(item: T, rest: seq<T>, capacity: nat, arrivals: seq<seq<T>>, dropped: seq<T>, next: T, rest': seq<T>)
    requires |rest| < capacity && arrivals != [] && |rest'| == capacity - 1
    requires [next] + rest' == rest + Accepted(capacity - |rest|, arrivals[0])
    ensures var o, o' := Settle(item, rest, capacity, arrivals), Settle(next, rest', capacity, arrivals[1..]);
      After(dropped, o) == After(dropped + [item], o')
  {
    var q := rest + Accepted(capacity - |rest|, arrivals[0]);
    assert q[0] == next && q[1..] == rest';
    Associate(dropped, [item], Settle(next, rest', capacity, arrivals[1..]).dropped);
  }

  /** The loop of _get_latest_hw with an item in hand. */
  method Latest<T(0)>(queue: Queue<T>, first: T, arrivals: seq<seq<T>>) returns (item: T, dropped: seq<T>)
    requires queue.Valid() && |queue.Contents()| < queue.items.Length
    modifies queue, queue.items
    ensures queue.Valid()
    ensures Outcome(item, dropped, queue.Contents()) == Settle(first, old(queue.Contents()), queue.items.Length, arrivals)
  {
    var finished, k := false, 0;
    item, dropped := first, [];
    ghost var rest, left := queue.Contents(), arrivals;
    ghost var total := Settle(first, rest, queue.items.Length, arrivals);
    while !finished && k < |arrivals|
      invariant queue.Valid() && k <= |arrivals| && rest == queue.Contents() && left == arrivals[k..]
      invariant |rest| < queue.items.Length
      invariant total == if finished then Outcome(item, dropped, rest) else After(dropped, Settle(item, rest, queue.items.Length, left))
      decreases |arrivals| - k, !finished
    {
      var was := item;
      finished, item := Round(queue, item, arrivals[k]);
      assert left[1..] == arrivals[k + 1..];
      if !finished {
        LetGo(was, rest, queue.items.Length, left, dropped, item, queue.Contents());
        dropped := dropped + [was];
      } else {
        Stop(item, rest, queue.items.Length, left, dropped);
      }
      rest, left, k := queue.Contents(), left[1..], k + 1;
    }
  }

  /** _get_latest_hw, for any puts between its steps. */
  method GetLatest<T(0)>(queue: Queue<T>, arrivals: seq<seq<T>>) returns (item: Option<T>, dropped: seq<T>)
    requires queue.Valid()
    modifies queue, queue.items
    ensures queue.Valid()
    ensures item.None? <==> old(queue.Contents()) == []
    ensures item.None? ==> queue.Contents() == [] && dropped == []
    ensures item.Some? ==>
      var start := old(queue.Contents());
      |start| <= queue.items.Length
      && Outcome(item.value, dropped, queue.Contents()) == Settle(start[0], start[1..], queue.items.Length, arrivals)
  {
    var got := queue.Get();
    if got.None? {
      return None, [];
    }
    var hw;
    hw, dropped := Latest(queue, got.value, arrivals);
    item := Some(hw);
  }

  /** What the queue holds at the k-th look, as long as the earlier looks found it full. */
  function AtLook<T>(rest: seq<T>, capacity: nat, arrivals: seq<seq<T>>, k: nat): (q: seq<T>)
    requires |rest| < capacity && k < |arrivals|
    ensures |q| <= capacity
    decreases k
  {
    var q := rest + Accepted(capacity - |rest|, arrivals[0]);
    if k == 0 || |q| < capacity then q else AtLook(q[1..], capacity, arrivals[1..], k - 1)
  }

  /** The k-th look makes the caller let go of its item exactly when the queue is full there. */
  lemma {:induction false} DropsWhenFull<T>(item: T, rest: seq<T>, capacity: nat, arrivals: seq<seq<T>>, k: nat)
    requires |rest| < capacity && k < |arrivals| && k <= |Settle(item, rest, capacity, arrivals).dropped|
    ensures var o, q := Settle(item, rest, capacity, arrivals), AtLook(rest, capacity, arrivals, k);
      && (k < |o.dropped| <==> |q| == capacity)
      && (k == |o.dropped| ==> o.rest == q)
    decreases k
  {
    var q := rest + Accepted(capacity - |rest|, arrivals[0]);
    if k > 0 {
      DropsWhenFull(q[0], q[1..], capacity, arrivals[1..], k - 1);
    }
  }

  /** The puts that go through before the call is over. */
  function AcceptedAll<T>(rest: seq<T>, capacity: nat, arrivals: seq<seq<T>>): seq<T>
    requires |rest| < capacity
    decreases |arrivals|
  {
    if arrivals == [] then []
    else
      var more := Accepted(capacity - |rest|, arrivals[0]);
      var q := rest + more;
      if |q| < capacity then more else more + AcceptedAll(q[1..], capacity, arrivals[1..])
  }

  /** Nothing is lost and nothing is reordered. */
  lemma {:induction false} Conserved<T>(item: T, rest: seq<T>, capacity: nat, arrivals: seq<seq<T>>)
    requires |rest| < capacity
    ensures var o := Settle(item, rest, capacity, arrivals);
      [item] + (rest + AcceptedAll(rest, capacity, arrivals)) == o.dropped + ([o.item] + o.rest)
    decreases |arrivals|
  {
    if arrivals != [] {
      var more := Accepted(capacity - |rest|, arrivals[0]);
      var q := rest + more;
      if |q| == capacity {
        Conserved(q[0], q[1..], capacity, arrivals[1..]);
        var o, later := Settle(q[0], q[1..], capacity, arrivals[1..]), AcceptedAll(q[1..], capacity, arrivals[1..]);
        Associate(rest, more, later);
        HeadFirst(q, later);
        Associate([item], o.dropped, [o.item] + o.rest);
      }
    }
  }

  /** The batches up to the first empty one. */
  function Busy<T>(arrivals: seq<seq<T>>): nat {
    if arrivals == [] || arrivals[0] == [] then 0 else 1 + Busy(arrivals[1..])
  }

  /**
   How many items are let go, in closed form: none unless the first batch fills the queue,
   and after that one more as long as anything at all arrives between two looks.
   */
  lemma {:induction false} DropCount<T>(item: T, rest: seq<T>, capacity: nat, arrivals: seq<seq<T>>)
    requires |rest| < capacity
    ensures |Settle(item, rest, capacity, arrivals).dropped|
      == if arrivals == [] || |rest| + |arrivals[0]| < capacity then 0 else 1 + Busy(arrivals[1..])
    decreases |arrivals|
  {
    if arrivals != [] && |rest| + |arrivals[0]| >= capacity {
      var q := rest + Accepted(capacity - |rest|, arrivals[0]);
      DropCount(q[0], q[1..], capacity, arrivals[1..]);
    }
  }

  lemma {:induction false} NothingLeftIff<T>(item: T, rest: seq<T>, capacity: nat, arrivals: seq<seq<T>>)
    requires |rest| < capacity
    ensures Settle(item, rest, capacity, arrivals).rest == []
       <==> capacity == 1 || (rest == [] && (arrivals == [] || arrivals[0] == []))
    decreases |arrivals|
  {
    if arrivals != [] {
      var q := rest + Accepted(capacity - |rest|, arrivals[0]);
      if |q| == capacity {
        NothingLeftIff(q[0], q[1..], capacity, arrivals[1..]);
      }
    }
  }

  lemma HeadFirst<T>(start: seq<T>, later: seq<T>)
    requires start != []
    ensures start + later == [start[0]] + (start[1..] + later)
  {
  }

  lemma Position<T>(all: seq<T>, before: seq<T>, item: T, behind: seq<T>)
    requires all == before + ([item] + behind)
    ensures |before| < |all| && all[|before|] == item && (|before| == |all| - 1 <==> behind == [])
  {
  }

  /**
   The comment in the source promises the freshest frame.  Of everything that was queued or
   accepted, the call returns the item after the ones it let go; that is the newest one
   exactly when the queue has a single slot, or held a single item and nothing arrived before
   the first look.
   */
  lemma NewestIff<T>(start: seq<T>, capacity: nat, arrivals: seq<seq<T>>)
    requires 0 < |start| <= capacity
    ensures var o := Settle(start[0], start[1..], capacity, arrivals);
      var all := start + AcceptedAll(start[1..], capacity, arrivals);
      && |o.dropped| < |all| && o.item == all[|o.dropped|]
      && (|o.dropped| == |all| - 1
          <==> capacity == 1 || (|start| == 1 && (arrivals == [] || arrivals[0] == [])))
  {
    var o, later := Settle(start[0], start[1..], capacity, arrivals), AcceptedAll(start[1..], capacity, arrivals);
    Conserved(start[0], start[1..], capacity, arrivals);
    NothingLeftIff(start[0], start[1..], capacity, arrivals);
    HeadFirst(start, later);
    Position(start + later, o.dropped, o.item, o.rest);
  }

  /** A queue of three slots: without arrivals the oldest of three, with one arrival the second of four. */
  lemma StaleExamples()
    ensures Settle(1, [2, 3], 3, []) == Outcome(1, [], [2, 3])
    ensures Settle(1, [2, 3], 3, [[4]]) == Outcome(2, [1], [3, 4])
  {
    var q := [2, 3] + Accepted(1, [4]);
    assert q == [2, 3, 4] && q[1..] == [3, 4];
    assert Settle(q[0], q[1..], 3, [[4]][1..]) == Outcome(2, [], [3, 4]);
  }
}

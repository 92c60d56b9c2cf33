/** The ring of slots: a queue of free slots and a queue of filled ones. */
module Rings {
  import opened Common
  import opened Queues

  /** Who has the slots: the two queues and what producers and consumers hold. */
  datatype Places = Places(free: seq<nat>, filled: seq<nat>, writing: multiset<nat>, reading: multiset<nat>) {
    ghost function All(): multiset<nat> {
      multiset(free) + multiset(filled) + writing + reading
    }
  }

  /** Every slot below the capacity is in exactly one of the four places. */
  ghost predicate Partition(s: Places, capacity: nat) {
    s.All() == multiset(Range(capacity))
  }

  lemma PartitionFacts(s: Places, capacity: nat, x: nat)
    requires Partition(s, capacity)
    ensures multiset(s.free)[x] + multiset(s.filled)[x] + s.writing[x] + s.reading[x] == if x < capacity then 1 else 0
    ensures |s.free| + |s.filled| + |s.writing| + |s.reading| == capacity
  {
    assert s.All()[x] == multiset(Range(capacity))[x];
    assert |s.All()| == |multiset(Range(capacity))| == |Range(capacity)|;
  }

  /** Taking the first free slot: it is a real slot, nobody else has it, and the partition stays. */
  lemma AcquireKeeps(s: Places, capacity: nat, x: nat, rest: seq<nat>)
    requires Partition(s, capacity) && s.free == [x] + rest
    ensures Partition(Places(rest, s.filled, s.writing + multiset{x}, s.reading), capacity)
    ensures x < capacity && x !in rest && x !in s.filled && x !in s.writing && x !in s.reading
  {
    PartitionFacts(s, capacity, x);
    assert multiset(s.free) == multiset{x} + multiset(rest);
    assert Places(rest, s.filled, s.writing + multiset{x}, s.reading).All() == s.All();
    assert multiset(s.free)[x] == 1 + multiset(rest)[x];
  }

  /** Giving a held slot to the other queue: there is room for it, and the partition stays. */
  lemma ReleaseKeeps(s: Places, capacity: nat, x: nat)
    requires Partition(s, capacity) && x in s.writing
    ensures Partition(Places(s.free, s.filled + [x], s.writing - multiset{x}, s.reading), capacity)
    ensures |s.filled| < capacity
  {
    PartitionFacts(s, capacity, x);
    assert s.writing == (s.writing - multiset{x}) + multiset{x};
    assert multiset(s.filled + [x]) == multiset(s.filled) + multiset{x};
    assert Places(s.free, s.filled + [x], s.writing - multiset{x}, s.reading).All() == s.All();
    assert |s.writing| >= 1;
  }

  /** Consumers are to the filled queue what producers are to the free one. */
  function Mirror(s: Places): Places {
    Places(s.filled, s.free, s.reading, s.writing)
  }

  lemma MirrorKeeps(s: Places, capacity: nat)
    ensures Partition(Mirror(s), capacity) <==> Partition(s, capacity)
  {
    assert Mirror(s).All() == s.All();
  }

  lemma ConsumerAcquireKeeps(s: Places, capacity: nat, x: nat, rest: seq<nat>)
    requires Partition(s, capacity) && s.filled == [x] + rest
    ensures Partition(s.(filled := rest, reading := s.reading + multiset{x}), capacity)
    ensures x < capacity && x !in rest && x !in s.free && x !in s.writing && x !in s.reading
  {
    MirrorKeeps(s, capacity);
    AcquireKeeps(Mirror(s), capacity, x, rest);
    MirrorKeeps(s.(filled := rest, reading := s.reading + multiset{x}), capacity);
  }

  lemma ConsumerReleaseKeeps(s: Places, capacity: nat, x: nat)
    requires Partition(s, capacity) && x in s.reading
    ensures Partition(s.(free := s.free + [x], reading := s.reading - multiset{x}), capacity)
    ensures |s.free| < capacity
  {
    MirrorKeeps(s, capacity);
    ReleaseKeeps(Mirror(s), capacity, x);
    MirrorKeeps(s.(free := s.free + [x], reading := s.reading - multiset{x}), capacity);
  }

  lemma FreeStep(free: seq<nat>, n: nat)
    requires multiset(free) == multiset(Range(n))
    ensures multiset(free + [n]) == multiset(Range(n + 1))
  {
    assert Range(n + 1) == Range(n) + {n};
    assert multiset(Range(n + 1)) == multiset(Range(n)) + multiset{n};
  }

  lemma FifoStep(released: seq<nat>, consumed: seq<nat>, x: nat, rest: seq<nat>)
    requires released == consumed + ([x] + rest)
    ensures released == consumed + [x] + rest && |consumed| < |released| && released[|consumed|] == x
  {
  }

  lemma FifoPush(released: seq<nat>, consumed: seq<nat>, filled: seq<nat>, x: nat)
    requires released == consumed + filled
    ensures released + [x] == consumed + (filled + [x])
  {
  }

  /** The loop of us_ring_init over an empty queue. */
  method FillUp(queue: Queue<nat>) returns (ghost free: seq<nat>)
    requires queue.Valid() && queue.Contents() == []
    modifies queue, queue.items
    ensures queue.Valid() && queue.Contents() == free
    ensures |free| == queue.items.Length && multiset(free) == multiset(Range(queue.items.Length))
  {
    free := [];
    for index := 0 to queue.items.Length
      invariant queue.Valid() && queue.Contents() == free
      invariant |free| == index && multiset(free) == multiset(Range(index))
    {
      var status := queue.Put(index);
      assert status >= 0;
      FreeStep(free, index);
      free := free + [index];
    }
  }

  class Ring {
    const capacity: nat
    const producer: Queue<nat>
    const consumer: Queue<nat>
    ghost var slots: Places
    ghost var released: seq<nat>     // slots in the order producers released them
    ghost var consumed: seq<nat>     // slots in the order consumers acquired them

    /** The two queues do not share memory and hold what slots says. */
    ghost predicate Linked()
      reads this, producer, producer.items, consumer, consumer.items
    {
      && producer != consumer && producer.items != consumer.items
      && producer.items.Length == consumer.items.Length == capacity
      && producer.Valid() && producer.Contents() == slots.free
      && consumer.Valid() && consumer.Contents() == slots.filled
    }

    ghost predicate Valid()
      reads this, producer, producer.items, consumer, consumer.items
    {
      Linked() && Partition(slots, capacity) && released == consumed + slots.filled
    }

    /** us_ring_init: every slot starts in the producer queue. */
    constructor (capacity: nat)
      ensures Valid() && this.capacity == capacity
      ensures slots.filled == [] && slots.writing == slots.reading == multiset{} && |slots.free| == capacity
    {
      this.capacity := capacity;
      producer := new Queue<nat>(capacity);
      consumer := new Queue<nat>(capacity);
      slots, released, consumed := Places([], [], multiset{}, multiset{}), [], [];
      new;
      ghost var free := FillUp(producer);
      slots := slots.(free := free);
    }

    /** us_ring_producer_acquire: a free slot that nobody else has, or -1 when there is none. */
    method ProducerAcquire() returns (ri: int)
      requires Valid()
      modifies `slots, producer
      ensures Valid()
      ensures ri < 0 ==> old(slots.free) == [] && slots == old(slots)
      ensures ri >= 0 ==>
        && old(slots.free) == [ri] + slots.free && ri < capacity
        && slots == old(slots).(free := slots.free, writing := old(slots.writing) + multiset{ri})
        && ri !in slots.free && ri !in slots.filled && ri !in old(slots.writing) && ri !in slots.reading
    {
      var place := producer.Get();
      if place.None? {
        return -1;
      }
      ri := place.value;
      ghost var rest := slots.free[1..];
      AcquireKeeps(slots, capacity, ri, rest);
      slots := slots.(free := rest, writing := slots.writing + multiset{ri});
    }

    /** us_ring_producer_release of a slot a producer holds: its assertion cannot fail. */
    method ProducerRelease(ri: nat)
      requires Valid() && ri in slots.writing
      modifies `slots, `released, consumer, consumer.items
      ensures Valid() && released == old(released) + [ri]
      ensures slots == old(slots).(filled := old(slots.filled) + [ri], writing := old(slots.writing) - multiset{ri})
    {
      ReleaseKeeps(slots, capacity, ri);
      var status := consumer.Put(ri);
      assert status >= 0;
      slots := slots.(filled := slots.filled + [ri], writing := slots.writing - multiset{ri});
      FifoPush(released, consumed, old(slots.filled), ri);
      released := released + [ri];
    }

    /** us_ring_consumer_acquire: slots come in the order the producers released them. */
    method ConsumerAcquire() returns (ri: int)
      requires Valid()
      modifies `slots, `consumed, consumer
      ensures Valid()
      ensures ri < 0 ==> old(slots.filled) == [] && slots == old(slots) && consumed == old(consumed)
      ensures ri >= 0 ==>
        && old(slots.filled) == [ri] + slots.filled && ri < capacity
        && slots == old(slots).(filled := slots.filled, reading := old(slots.reading) + multiset{ri})
        && ri !in slots.free && ri !in slots.filled && ri !in slots.writing && ri !in old(slots.reading)
        && |old(consumed)| < |released| && ri == released[|old(consumed)|] && consumed == old(consumed) + [ri]
    {
      var place := consumer.Get();
      if place.None? {
        return -1;
      }
      ri := place.value;
      ghost var rest := slots.filled[1..];
      ConsumerAcquireKeeps(slots, capacity, ri, rest);
      slots := slots.(filled := rest, reading := slots.reading + multiset{ri});
      FifoStep(released, consumed, ri, rest);
      consumed := consumed + [ri];
    }

    /** us_ring_consumer_release of a slot a consumer holds: its assertion cannot fail. */
    method ConsumerRelease(ri: nat)
      requires Valid() && ri in slots.reading
      modifies `slots, producer, producer.items
      ensures Valid()
      ensures slots == old(slots).(free := old(slots.free) + [ri], reading := old(slots.reading) - multiset{ri})
    {
      ConsumerReleaseKeeps(slots, capacity, ri);
      var status := producer.Put(ri);
      assert status >= 0;
      slots := slots.(free := slots.free + [ri], reading := slots.reading - multiset{ri});
    }
  }
}

/** us_workers_pool_wait on the linked list of workers, and the same scan in the pool's state machine. */
module WorkerScan {
  import opened Common
  import opened LinkedLists
  import P = WorkersPool

  /** What the scan reads of a worker. */
  datatype Slot = Slot(worker: nat, hasJob: bool, startTs: int)

  /** k is the idle worker that started last and, among equals, the last one in the list. */
  ghost predicate Picks(items: seq<Slot>, k: nat) {
    && k < |items| && !items[k].hasJob
    && forall j | 0 <= j < |items| && !items[j].hasJob ::
      items[j].startTs < items[k].startTs || (items[j].startTs == items[k].startTs && j <= k)
  }

  /** One node further: either it takes over or the choice so far stands. */
  lemma PicksStep(items: seq<Slot>, i: nat, k: Option<nat>)
    requires i < |items| && (k.Some? ==> Picks(items[..i], k.value)) && (k.None? ==> forall j | 0 <= j < i :: items[j].hasJob)
    ensures !items[i].hasJob && (k.None? || items[k.value].startTs <= items[i].startTs) ==> Picks(items[..i + 1], i)
    ensures k.Some? && (items[i].hasJob || items[k.value].startTs > items[i].startTs) ==> Picks(items[..i + 1], k.value)
  {
    assert forall j | 0 <= j < i :: items[..i + 1][j] == items[..i][j];
    assert items[..i + 1][i] == items[i];
  }

  class Pool {
    const list: List<Slot>
    var timelyTs: int

    constructor ()
      ensures list.Valid() && fresh(list) && timelyTs == 0
    {
      list := new List();
      timelyTs := 0;
    }

    /** The loop over the list, without changing it. */
    method Find() returns (found: Node?<Slot>, ghost k: nat)
      requires list.Valid()
      ensures found != null ==> Picks(list.items, k) && k < |list.nodes| && list.nodes[k] == found
      ensures found == null ==> forall j | 0 <= j < |list.items| :: list.items[j].hasJob
    {
      found, k := null, 0;
      var wr := list.first;
      ghost var i: nat := 0;
      while wr != null
        invariant i <= |list.nodes| && wr == NodeAt(list.nodes, i)
        invariant found != null ==> k < i && list.nodes[k] == found && Picks(list.items[..i], k)
        invariant found == null ==> forall j | 0 <= j < i :: list.items[j].hasJob
        decreases |list.nodes| - i
      {
        PicksStep(list.items, i, if found == null then None else Some(k));
        list.NextIs(i);
        if !wr.item.hasJob && (found == null || found.item.startTs <= wr.item.startTs) {
          found, k := wr, i;
        }
        wr, i := wr.next, i + 1;
      }
      assert list.items[..i] == list.items;
    }

    /** us_workers_pool_wait past the condition variable: the scan proved to meet an idle worker. */
    method Wait() returns (found: Node<Slot>, timely: bool, ghost k: nat)
      requires list.Valid() && exists j :: 0 <= j < |list.items| && !list.items[j].hasJob
      modifies `timelyTs, list, list.repr
      ensures Picks(old(list.items), k) && old(list.nodes)[k] == found
      ensures list.Valid() && list.nodes == old(list.nodes[..k] + list.nodes[k + 1..]) + [found]
      ensures list.items == old(list.items[..k] + list.items[k + 1..]) + [old(list.items)[k]]
      ensures timely <==> old(list.items)[k].startTs > old(timelyTs)
      ensures timelyTs == if timely then old(list.items)[k].startTs else old(timelyTs)
    {
      var wr;
      wr, k := Find();
      assert wr != null;
      found := wr;
      list.Remove(found, k);
      list.Append(found);
      timely := found.item.startTs > timelyTs;
      if timely {
        timelyTs := found.item.startTs;
      }
    }
  }

  // ---------------------------------------------------------------- the scan of the state machine

  /** What an undisturbed scan of the first i list entries finds. */
  function Scanned(s: P.State, i: nat): (r: Option<nat>)
    requires i <= |s.order| && forall j | 0 <= j < |s.order| :: s.order[j] < |s.workers|
    ensures r.Some? ==> r.value < |s.workers|
  {
    if i == 0 then None else P.Better(s, Scanned(s, i - 1), s.order[i - 1])
  }

  function Slots(s: P.State): (r: seq<Slot>)
    requires forall j | 0 <= j < |s.order| :: s.order[j] < |s.workers|
  {
    seq(|s.order|, j requires 0 <= j < |s.order| =>
      var w := s.order[j]; Slot(w, s.workers[w].hasJob, s.workers[w].startTs))
  }

  /** The machine's scan and the walk over the list choose alike. */
  lemma {:induction false} ScannedPicks(s: P.State, i: nat) returns (k: nat)
    requires i <= |s.order| && forall j | 0 <= j < |s.order| :: s.order[j] < |s.workers|
    ensures Scanned(s, i).Some? ==> k < i && s.order[k] == Scanned(s, i).value && Picks(Slots(s)[..i], k)
    ensures Scanned(s, i).None? ==> forall j | 0 <= j < i :: Slots(s)[j].hasJob
  {
    k := 0;
    if i > 0 {
      k := ScannedPicks(s, i - 1);
      var before := Scanned(s, i - 1);
      PicksStep(Slots(s), i - 1, if before.None? then None else Some(k));
      var wr := s.workers[s.order[i - 1]];
      if !wr.hasJob && (before.None? || s.workers[before.value].startTs <= wr.startTs) {
        k := i - 1;
      }
    }
  }
}

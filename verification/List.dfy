/** The intrusive doubly linked list of list.h. */
module LinkedLists {

  class Node<T> {
    var prev: Node?<T>
    var next: Node?<T>
    var item: T

    constructor (item: T)
      ensures prev == null && next == null && this.item == item
    {
      prev, next := null, null;
      this.item := item;
    }
  }

  ghost function NodeAt<T>(nodes: seq<Node<T>>, i: nat): (n: Node?<T>) {
    if i < |nodes| then nodes[i] else null
  }

  /** The neighbours of every node are the ones the sequence says. */
  ghost predicate Chained<T>(nodes: seq<Node<T>>)
    reads nodes
  {
    && (forall i, j | 0 <= i < j < |nodes| :: nodes[i] != nodes[j])
    && (nodes != [] ==> nodes[0].prev == null && nodes[|nodes| - 1].next == null)
    && (forall i, j | 0 <= i && j == i + 1 && j < |nodes| :: nodes[i].next == nodes[j] && nodes[j].prev == nodes[i])
  }

  class List<T> {
    var first: Node?<T>
    ghost var nodes: seq<Node<T>>
    /** What the nodes hold, in order. */
    ghost var items: seq<T>
    /** Every node that is or was linked here. */
    ghost var repr: set<Node<T>>

    ghost predicate Valid()
      reads this, nodes
    {
      && first == NodeAt(nodes, 0)
      && Chained(nodes)
      && (forall i | 0 <= i < |nodes| :: nodes[i] in repr)
      && |items| == |nodes|
      && (forall i | 0 <= i < |nodes| :: nodes[i].item == items[i])
    }

    constructor ()
      ensures Valid() && items == [] && repr == {}
    {
      first, nodes, items, repr := null, [], [], {};
    }

    /** US_LIST_APPEND; it relies on x->prev being NULL when the list is empty. */
    method Append(x: Node<T>)
      requires Valid() && x !in nodes && x.prev == null
      modifies this, repr, x`prev, x`next
      ensures Valid() && nodes == old(nodes) + [x] && items == old(items) + [x.item]
      ensures repr == old(repr) + {x} && x.item == old(x.item)
    {
      if first == null {
        first := x;
      } else {
        var last, k := first, 0;
        while last.next != null
          invariant 0 <= k < |nodes| && last == nodes[k]
          decreases |nodes| - k
          modifies {}
        {
          NextIs(k);
          last, k := last.next, k + 1;
        }
        NextIs(k);
        x.prev := last;
        last.next := x;
      }
      x.next := null;
      nodes, items, repr := nodes + [x], items + [x.item], repr + {x};
    }

    /** The pointer surgery of US_LIST_REMOVE on the k-th node. */
    method Unhook(x: Node<T>, ghost k: nat)
      requires Valid() && k < |nodes| && nodes[k] == x
      modifies this`first, repr
      ensures x.prev == null && x.next == null
      ensures var after := nodes[..k] + nodes[k + 1..]; Chained(after) && first == NodeAt(after, 0)
      ensures forall n | n in repr :: n.item == old(n.item)
    {
      ghost var after := nodes[..k] + nodes[k + 1..];
      assert forall i | 0 <= i < |after| :: after[i] == nodes[if i < k then i else i + 1];
      assert k > 0 ==> x.prev == nodes[k - 1];
      assert k < |nodes| - 1 ==> x.next == nodes[k + 1];
      if x.prev == null {
        first := x.next;
      } else {
        x.prev.next := x.next;
      }
      if x.next != null {
        x.next.prev := x.prev;
      }
      x.prev := null;
      x.next := null;
    }

    /** US_LIST_REMOVE of the k-th node. */
    method Remove(x: Node<T>, ghost k: nat)
      requires Valid() && k < |nodes| && nodes[k] == x
      modifies this, repr
      ensures Valid() && nodes == old(nodes[..k] + nodes[k + 1..]) && items == old(items[..k] + items[k + 1..])
      ensures x.prev == null && x.next == null && x.item == old(x.item) && repr == old(repr)
    {
      Unhook(x, k);
      nodes, items := nodes[..k] + nodes[k + 1..], items[..k] + items[k + 1..];
    }

    /** Where US_LIST_ITERATE goes from the k-th node. */
    lemma NextIs(k: nat)
      requires Valid() && k < |nodes|
      ensures nodes[k].next == NodeAt(nodes, k + 1)
    {
      assert k + 1 < |nodes| ==> nodes[k].next == nodes[k + 1];
    }

    /** A change of the k-th node's own fields. */
    method Store(x: Node<T>, ghost k: nat, item: T)
      requires Valid() && k < |nodes| && nodes[k] == x
      modifies this`items, x`item
      ensures Valid() && items == old(items)[k := item]
    {
      x.item := item;
      items := items[k := item];
    }
  }
}

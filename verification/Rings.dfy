/** The circular doubly linked list of `list.h`. A ring is a head node followed by its
    entries; `next` and `prev` are mutually inverse all the way round. */
module Rings {

  class ListHead<T> {
    var next: ListHead?<T>
    var prev: ListHead?<T>
    /** `container_of`: the structure this link is embedded in. */
    const entry: T

    /** Memory as `calloc` leaves it: linked to nothing. */
    constructor (entry: T)
      ensures this.entry == entry && next == null && prev == null
    {
      this.entry := entry;
      next, prev := null, null;
    }
  }

  ghost predicate Distinct<N>(s: seq<N>) {
    forall i, j :: 0 <= i < j < |s| ==> s[i] != s[j]
  }

  lemma {:induction false} DistinctConcat<N>(a: seq<N>, b: seq<N>)
    requires Distinct(a) && Distinct(b)
    requires forall x :: x in a ==> x !in b
    ensures Distinct(a + b)
  {
    forall i, j | 0 <= i < j < |a + b| ensures (a + b)[i] != (a + b)[j] {
      if i < |a| {
        assert a[i] in a;
      }
    }
  }

  function RemoveAt<N>(s: seq<N>, k: nat): seq<N>
    requires k < |s|
  {
    s[..k] + s[k + 1..]
  }

  /** The way round: head, entries, head again. */
  ghost function Cycle<T>(head: ListHead<T>, nodes: seq<ListHead<T>>): seq<ListHead<T>> {
    [head] + nodes + [head]
  }

  ghost predicate Ring<T>(head: ListHead<T>, nodes: seq<ListHead<T>>)
    reads head, nodes
  {
    var c := Cycle(head, nodes);
    && head !in nodes
    && Distinct(nodes)
    && (forall i :: 0 <= i <= |nodes| ==> c[i].next == c[i + 1])
    && (forall i :: 1 <= i <= |nodes| + 1 ==> c[i].prev == c[i - 1])
  }

  /** Only the head is met twice on the way round. */
  lemma {:induction false} CycleDistinct<T>(head: ListHead<T>, nodes: seq<ListHead<T>>, i: nat, j: nat)
    requires head !in nodes && Distinct(nodes) && i < j <= |nodes| + 1
    ensures var c := Cycle(head, nodes); c[i] == c[j] ==> i == 0 && j == |nodes| + 1
  {
    if 0 < i {
      assert Cycle(head, nodes)[i] == nodes[i - 1];
    }
  }

  lemma {:induction false} CycleInsert<T>(head: ListHead<T>, nodes: seq<ListHead<T>>, node: ListHead<T>, k: nat)
    requires head !in nodes && Distinct(nodes) && node != head && node !in nodes && k <= |nodes|
    ensures var nodes' := nodes[..k] + [node] + nodes[k..];
            && head !in nodes' && Distinct(nodes')
            && Cycle(head, nodes') == Cycle(head, nodes)[..k + 1] + [node] + Cycle(head, nodes)[k + 1..]
  {
  }

  lemma {:induction false} CycleRemove<T>(head: ListHead<T>, nodes: seq<ListHead<T>>, k: nat)
    requires head !in nodes && Distinct(nodes) && k < |nodes|
    ensures var nodes' := RemoveAt(nodes, k);
            && head !in nodes' && Distinct(nodes') && nodes[k] !in nodes'
            && Cycle(head, nodes') == Cycle(head, nodes)[..k + 1] + Cycle(head, nodes)[k + 2..]
  {
  }

  // ---------------------------------------------------------------- single operations

  method InitListHead<T>(head: ListHead<T>)
    modifies head
    ensures Ring(head, [])
  {
    head.next, head.prev := head, head;
  }

  /** Both directions: an empty ring and only an empty ring tests as empty. */
  method ListEmpty<T>(head: ListHead<T>, ghost nodes: seq<ListHead<T>>) returns (empty: bool)
    requires Ring(head, nodes)
    ensures empty <==> nodes == []
  {
    empty := head.next == head;
    assert Cycle(head, nodes)[0].next == Cycle(head, nodes)[1];
  }

  /** A node put in after the `k`-th stop, and linked there, keeps the way round. */
  lemma {:induction false} InsertedLinks<T>(c: seq<ListHead<T>>, node: ListHead<T>, k: nat)
    requires k + 1 < |c| && c[k].next == node && node.next == c[k + 1] && c[k + 1].prev == node && node.prev == c[k]
    requires forall i :: 0 <= i < |c| - 1 && i != k ==> c[i].next == c[i + 1]
    requires forall i :: 1 <= i < |c| && i != k + 1 ==> c[i].prev == c[i - 1]
    ensures var c' := c[..k + 1] + [node] + c[k + 1..];
            && (forall i :: 0 <= i < |c| ==> c'[i].next == c'[i + 1])
            && (forall i :: 1 <= i <= |c| ==> c'[i].prev == c'[i - 1])
  {
    var c' := c[..k + 1] + [node] + c[k + 1..];
    assert forall i :: 0 <= i < |c'| ==> c'[i] == if i <= k then c[i] else if i == k + 1 then node else c[i - 1];
  }

  /** The stop after the `k`-th left out, and linked past, keeps the way round. */
  lemma {:induction false} RemovedLinks<T>(c: seq<ListHead<T>>, k: nat)
    requires k + 2 < |c| && c[k].next == c[k + 2] && c[k + 2].prev == c[k]
    requires forall i :: 0 <= i < |c| - 1 && i != k && i != k + 1 ==> c[i].next == c[i + 1]
    requires forall i :: 1 <= i < |c| && i != k + 1 && i != k + 2 ==> c[i].prev == c[i - 1]
    ensures var c' := c[..k + 1] + c[k + 2..];
            && (forall i :: 0 <= i < |c| - 2 ==> c'[i].next == c'[i + 1])
            && (forall i :: 1 <= i < |c| - 1 ==> c'[i].prev == c'[i - 1])
  {
    var c' := c[..k + 1] + c[k + 2..];
    assert forall i :: 0 <= i < |c'| ==> c'[i] == if i <= k then c[i] else c[i + 1];
  }

  /** No other stop before the last is the `k`-th node, and none after the first is the one after it. */
  lemma {:induction false} OtherStops<T>(head: ListHead<T>, nodes: seq<ListHead<T>>, k: nat)
    requires head !in nodes && Distinct(nodes) && k <= |nodes|
    ensures forall i :: 0 <= i <= |nodes| && i != k ==> Cycle(head, nodes)[i] != Cycle(head, nodes)[k]
    ensures forall i :: 1 <= i <= |nodes| + 1 && i != k + 1 ==> Cycle(head, nodes)[i] != Cycle(head, nodes)[k + 1]
  {
    forall i | 0 <= i <= |nodes| && i != k ensures Cycle(head, nodes)[i] != Cycle(head, nodes)[k] {
      CycleDistinct(head, nodes, if i < k then i else k, if i < k then k else i);
    }
    forall i | 1 <= i <= |nodes| + 1 && i != k + 1 ensures Cycle(head, nodes)[i] != Cycle(head, nodes)[k + 1] {
      CycleDistinct(head, nodes, if i <= k then i else k + 1, if i <= k then k + 1 else i);
    }
  }

  /** `__list_add` between the `k`-th stop of the cycle and the next one. */
  method ListInsert<T>(node: ListHead<T>, before: ListHead<T>, after: ListHead<T>,
                       ghost head: ListHead<T>, ghost nodes: seq<ListHead<T>>, ghost k: nat)
    requires Ring(head, nodes) && node != head && node !in nodes
    requires k <= |nodes| && before == Cycle(head, nodes)[k] && after == Cycle(head, nodes)[k + 1]
    modifies node, before, after
    ensures Ring(head, nodes[..k] + [node] + nodes[k..])
  {
    ghost var c := Cycle(head, nodes);
    assert forall i :: 0 <= i < |c| ==> c[i] != node;
    OtherStops(head, nodes, k);
    CycleInsert(head, nodes, node, k);
    hide Distinct;
    after.prev := node;
    node.next := after;
    node.prev := before;
    before.next := node;
    InsertedLinks(c, node, k);
  }

  method ListAdd<T>(node: ListHead<T>, head: ListHead<T>, ghost nodes: seq<ListHead<T>>)
    requires Ring(head, nodes) && node != head && node !in nodes
    modifies node, head, nodes
    ensures Ring(head, [node] + nodes)
  {
    assert Cycle(head, nodes)[0].next == Cycle(head, nodes)[1];
    ListInsert(node, head, head.next, head, nodes, 0);
    assert nodes[..0] + [node] + nodes[0..] == [node] + nodes;
  }

  method ListAddTail<T>(node: ListHead<T>, head: ListHead<T>, ghost nodes: seq<ListHead<T>>)
    requires Ring(head, nodes) && node != head && node !in nodes
    modifies node, head, nodes
    ensures Ring(head, nodes + [node])
  {
    ghost var n := |nodes|;
    assert Cycle(head, nodes)[n + 1].prev == Cycle(head, nodes)[n];
    ListInsert(node, head.prev, head, head, nodes, n);
    assert nodes[..n] + [node] + nodes[n..] == nodes + [node];
  }

  /** The links at the `i`-th stop, a head being stop 0. */
  lemma {:induction false} RingLinks<T>(head: ListHead<T>, nodes: seq<ListHead<T>>, i: nat)
    requires Ring(head, nodes) && i <= |nodes|
    ensures var c := Cycle(head, nodes);
            c[i].next == c[i + 1] && c[i].prev == if i == 0 then c[|nodes|] else c[i - 1]
  {
    var c := Cycle(head, nodes);
    assert c[if i == 0 then |nodes| + 1 else i].prev == c[if i == 0 then |nodes| else i - 1];
  }

  /** `__list_del` applied to the neighbours of the `k`-th entry, whose own links go stale.
      On a node that is an empty ring by itself it changes nothing. */
  method ListUnlink<T>(node: ListHead<T>, ghost head: ListHead<T>, ghost nodes: seq<ListHead<T>>, ghost k: nat)
    requires Ring(head, nodes)
    requires if node == head then nodes == [] else k < |nodes| && nodes[k] == node
    modifies head, nodes
    ensures Ring(head, if node == head then [] else RemoveAt(nodes, k))
    ensures node.next == old(node.next) && node.prev == old(node.prev)
  {
    ghost var c := Cycle(head, nodes);
    RingLinks(head, nodes, if node == head then 0 else k + 1);
    if node != head {
      OtherStops(head, nodes, k);
      OtherStops(head, nodes, k + 1);
      CycleRemove(head, nodes, k);
    }
    hide Distinct;
    var before, after := node.prev, node.next;
    after.prev := before;
    before.next := after;
    if node != head {
      RemovedLinks(c, k);
    }
  }

  /** `list_del`: the node's own links become the poison values nobody may follow. An empty ring
      by itself is given up. */
  method ListDel<T>(node: ListHead<T>, ghost head: ListHead<T>, ghost nodes: seq<ListHead<T>>, ghost k: nat)
    requires Ring(head, nodes)
    requires if node == head then nodes == [] else k < |nodes| && nodes[k] == node
    modifies head, nodes
    ensures node != head ==> Ring(head, RemoveAt(nodes, k))
    ensures node.next == null && node.prev == null
  {
    ListUnlink(node, head, nodes, k);
    node.next, node.prev := null, null;
  }

  method ListDelInit<T>(node: ListHead<T>, ghost head: ListHead<T>, ghost nodes: seq<ListHead<T>>, ghost k: nat)
    requires Ring(head, nodes)
    requires if node == head then nodes == [] else k < |nodes| && nodes[k] == node
    modifies head, nodes
    ensures node != head ==> Ring(head, RemoveAt(nodes, k))
    ensures Ring(node, [])
  {
    ListUnlink(node, head, nodes, k);
    InitListHead(node);
  }

  /** Where the `i`-th stop of the spliced cycle comes from, and that no two stops clash. */
  lemma {:induction false} SpliceStop<T>(list: ListHead<T>, moved: seq<ListHead<T>>,
                      head: ListHead<T>, nodes: seq<ListHead<T>>, i: nat)
    requires moved != [] && i <= |moved| + |nodes| + 1
    requires Distinct(moved) && Distinct(nodes) && head !in moved && head !in nodes
    requires forall x :: x in moved ==> x !in nodes
    ensures var a, b, c := Cycle(list, moved), Cycle(head, nodes), Cycle(head, moved + nodes);
            && c[i] == (if i == 0 then head else if i <= |moved| then a[i] else b[i - |moved|])
            && (c[i] == a[1] <==> i == 1) && (c[i] == a[|moved|] <==> i == |moved|)
            && (c[i] == head <==> i == 0 || i == |moved| + |nodes| + 1)
            && (i > 0 ==> (c[i] == b[1] <==> i == |moved| + 1 || (nodes == [] && i == |moved| + 1)))
  {
    var s := moved + nodes;
    DistinctConcat(moved, nodes);
    assert moved[0] == s[0] && moved[|moved| - 1] == s[|moved| - 1];
    assert nodes != [] ==> nodes[0] == s[|moved|];
  }

  /** `list_splice`: the spliced-out head keeps its stale links. */
  method ListSplice<T>(list: ListHead<T>, ghost moved: seq<ListHead<T>>,
                       head: ListHead<T>, ghost nodes: seq<ListHead<T>>)
    requires Ring(list, moved) && Ring(head, nodes)
    requires list != head && list !in nodes && head !in moved
    requires forall x :: x in moved ==> x !in nodes
    modifies head, nodes, moved
    ensures Ring(head, moved + nodes)
    ensures moved == [] ==> Ring(list, [])
  {
    ghost var a, b := Cycle(list, moved), Cycle(head, nodes);
    var empty := ListEmpty(list, moved);
    if empty {
      assert moved + nodes == nodes;
    } else {
      var first, last, at := list.next, list.prev, head.next;
      assert a[0].next == a[1] && a[|moved| + 1].prev == a[|moved|] && b[0].next == b[1];
      first.prev := head;
      head.next := first;
      last.next := at;
      at.prev := last;
      ghost var n, c := |moved|, Cycle(head, moved + nodes);
      forall i | 0 <= i <= n + |nodes| ensures c[i].next == c[i + 1] {
        SpliceStop(list, moved, head, nodes, i);
        SpliceStop(list, moved, head, nodes, i + 1);
      }
      forall i | 1 <= i <= n + |nodes| + 1 ensures c[i].prev == c[i - 1] {
        SpliceStop(list, moved, head, nodes, i);
        SpliceStop(list, moved, head, nodes, i - 1);
      }
      DistinctConcat(moved, nodes);
    }
  }

  method ListSpliceInit<T>(list: ListHead<T>, ghost moved: seq<ListHead<T>>,
                           head: ListHead<T>, ghost nodes: seq<ListHead<T>>)
    requires Ring(list, moved) && Ring(head, nodes)
    requires list != head && list !in nodes && head !in moved
    requires forall x :: x in moved ==> x !in nodes
    modifies list, head, nodes, moved
    ensures Ring(head, moved + nodes) && Ring(list, [])
  {
    var empty := ListEmpty(list, moved);
    ListSplice(list, moved, head, nodes);
    if !empty {
      InitListHead(list);
    }
  }

  /** `list_for_each_entry_safe` whose body deletes the current entry: every entry is visited
      once, in order, and an empty ring is left behind. */
  method Drain<T>(head: ListHead<T>, ghost nodes: seq<ListHead<T>>) returns (visited: seq<ListHead<T>>)
    requires Ring(head, nodes)
    modifies head, nodes
    ensures visited == nodes
    ensures Ring(head, [])
    ensures forall x :: x in nodes ==> x.next == null && x.prev == null
  {
    visited := [];
    assert Cycle(head, nodes)[0].next == Cycle(head, nodes)[1];
    var pos := head.next;
    assert nodes != [] ==> Cycle(head, nodes)[1].next == Cycle(head, nodes)[2];
    var n := pos.next;
    ghost var i := 0;
    while pos != head
      invariant i <= |nodes| && visited == nodes[..i]
      invariant Ring(head, nodes[i..])
      invariant pos == Cycle(head, nodes)[i + 1]
      invariant n == if i < |nodes| then Cycle(head, nodes)[i + 2] else head.next
      invariant forall j :: 0 <= j < i ==> nodes[j].next == null && nodes[j].prev == null
      decreases |nodes| - i
    {
      ghost var rest := nodes[i..];
      assert i < |nodes| && rest[0] == pos;
      visited := visited + [pos];
      ListDel(pos, head, rest, 0);
      assert RemoveAt(rest, 0) == nodes[i + 1..];
      i := i + 1;
      pos := n;
      ghost var c := Cycle(head, nodes[i..]);
      assert c[0].next == c[1];
      assert i < |nodes| ==> c[1].next == c[2];
      n := n.next;
    }
    assert nodes[i..] == [];
  }
}

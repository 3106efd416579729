/** The single-headed list of `list.h`. A node does not know the node before it but the slot
    that points at it: the head's `first`, or another node's `next`. */
module HashChains {
  import opened Rings

  class HlistHead {
    var first: HlistNode?

    /** `INIT_HLIST_HEAD`. */
    constructor ()
      ensures first == null
    {
      first := null;
    }
  }

  /** `struct hlist_node **`. */
  datatype Slot = First(head: HlistHead) | Next(node: HlistNode) | Nowhere

  class HlistNode {
    var next: HlistNode?
    var pprev: Slot

    /** `INIT_HLIST_NODE`. */
    constructor ()
      ensures next == null && pprev == Nowhere
    {
      next, pprev := null, Nowhere;
    }
  }

  /** The `i`-th slot of a chain, which points at the `i`-th node or is the end. */
  function SlotAt(h: HlistHead, nodes: seq<HlistNode>, i: nat): Slot
    requires i <= |nodes|
  {
    if i == 0 then First(h) else Next(nodes[i - 1])
  }

  ghost predicate PointsAt(slot: Slot, n: HlistNode?)
    reads match slot case First(h) => {h as object} case Next(m) => {m as object} case Nowhere => {}
  {
    match slot
    case First(h) => h.first == n
    case Next(m) => m.next == n
    case Nowhere => false
  }

  function NodeAt(nodes: seq<HlistNode>, i: nat): HlistNode? {
    if i < |nodes| then nodes[i] else null
  }

  /** The `i`-th node is named by its slot and leads to the next node. */
  ghost predicate Linked(h: HlistHead, nodes: seq<HlistNode>, i: nat)
    requires i < |nodes|
    reads nodes[i]
  {
    nodes[i].next == NodeAt(nodes, i + 1) && nodes[i].pprev == SlotAt(h, nodes, i)
  }

  /** Every slot points at the next node, the last one at nothing, and every node's `pprev` is
      the one slot that points at it. */
  ghost predicate Chain(h: HlistHead, nodes: seq<HlistNode>)
    reads h, nodes
  {
    Distinct(nodes) && h.first == NodeAt(nodes, 0) && forall i :: 0 <= i < |nodes| ==> Linked(h, nodes, i)
  }

  lemma {:induction false} InsertAt(nodes: seq<HlistNode>, n: HlistNode, k: nat)
    requires Distinct(nodes) && n !in nodes && k <= |nodes|
    ensures var s := nodes[..k] + [n] + nodes[k..];
            && |s| == |nodes| + 1 && Distinct(s)
            && (forall i :: 0 <= i < k ==> s[i] == nodes[i]) && s[k] == n
            && (forall i :: k < i < |s| ==> s[i] == nodes[i - 1])
  {
  }

  lemma {:induction false} WithoutNode(nodes: seq<HlistNode>, k: nat)
    requires Distinct(nodes) && k < |nodes|
    ensures var s := RemoveAt(nodes, k);
            && |s| == |nodes| - 1 && Distinct(s)
            && (forall i :: 0 <= i < k ==> s[i] == nodes[i])
            && (forall i :: k <= i < |s| ==> s[i] == nodes[i + 1])
  {
  }

  /** In a chain the slot a node names is the only one that points at it. */
  lemma {:induction false} UniqueSlot(h: HlistHead, nodes: seq<HlistNode>, i: nat, j: nat)
    requires Chain(h, nodes) && i < |nodes| && j <= |nodes|
    ensures PointsAt(nodes[i].pprev, nodes[i])
    ensures PointsAt(SlotAt(h, nodes, j), nodes[i]) ==> j == i
  {
    assert Linked(h, nodes, i) && (i > 0 ==> Linked(h, nodes, i - 1)) && (j > 0 ==> Linked(h, nodes, j - 1));
  }

  method Store(slot: Slot, n: HlistNode?)
    requires slot != Nowhere
    modifies match slot case First(h) => {h as object} case Next(m) => {m as object} case Nowhere => {}
    ensures PointsAt(slot, n)
    ensures slot.Next? ==> slot.node.pprev == old(slot.node.pprev)
  {
    match slot {
      case First(h) => h.first := n;
      case Next(m) => m.next := n;
    }
  }

  method HlistAddHead(n: HlistNode, h: HlistHead, ghost nodes: seq<HlistNode>)
    requires Chain(h, nodes) && n !in nodes
    modifies n, h, nodes
    ensures Chain(h, [n] + nodes)
  {
    ghost var s := nodes[..0] + [n] + nodes[0..];
    InsertAt(nodes, n, 0);
    assert forall i :: 0 <= i < |nodes| ==> Linked(h, nodes, i);
    var first := h.first;
    n.next := first;
    if first != null {
      first.pprev := Next(n);
    }
    h.first := n;
    n.pprev := First(h);
    forall i | 0 <= i < |s| ensures Linked(h, s, i) {
      assert i > 0 ==> s[i] == nodes[i - 1] && old(Linked(h, nodes, i - 1));
    }
    assert s == [n] + nodes;
  }

  method HlistAddBefore(n: HlistNode, next: HlistNode, ghost h: HlistHead, ghost nodes: seq<HlistNode>, ghost k: nat)
    requires Chain(h, nodes) && n !in nodes && k < |nodes| && nodes[k] == next
    modifies n, h, nodes
    ensures Chain(h, nodes[..k] + [n] + nodes[k..])
  {
    ghost var s := nodes[..k] + [n] + nodes[k..];
    InsertAt(nodes, n, k);
    assert Linked(h, nodes, k) && (k > 0 ==> Linked(h, nodes, k - 1));
    n.pprev := next.pprev;
    n.next := next;
    next.pprev := Next(n);
    Store(n.pprev, n);
    forall i | 0 <= i < |s| ensures Linked(h, s, i) {
      assert i < k ==> old(Linked(h, nodes, i));
      assert i > k ==> old(Linked(h, nodes, i - 1));
    }
  }

  /** The arguments are the other way round from the name: `next` goes in after `n`. */
  method HlistAddAfter(n: HlistNode, next: HlistNode, ghost h: HlistHead, ghost nodes: seq<HlistNode>, ghost k: nat)
    requires Chain(h, nodes) && next !in nodes && k < |nodes| && nodes[k] == n
    modifies next, nodes
    ensures Chain(h, nodes[..k + 1] + [next] + nodes[k + 1..])
  {
    ghost var s := nodes[..k + 1] + [next] + nodes[k + 1..];
    InsertAt(nodes, next, k + 1);
    assert Linked(h, nodes, k);
    next.next := n.next;
    n.next := next;
    next.pprev := Next(n);
    if next.next != null {
      assert next.next == nodes[k + 1];
      next.next.pprev := Next(next);
    }
    forall i | 0 <= i < |s| ensures Linked(h, s, i) {
      assert i <= k ==> old(Linked(h, nodes, i));
      assert i > k + 1 ==> old(Linked(h, nodes, i - 1));
    }
  }

  /** `hlist_del_init`: nothing happens to a node that is in no chain. */
  method HlistDelInit(n: HlistNode, ghost h: HlistHead, ghost nodes: seq<HlistNode>, ghost k: nat)
    requires Chain(h, nodes) && if n in nodes then k < |nodes| && nodes[k] == n else n.pprev == Nowhere
    modifies n, h, nodes
    ensures n.pprev == Nowhere
    ensures old(n.pprev) != Nowhere ==> n.next == null
    ensures Chain(h, if n in nodes then RemoveAt(nodes, k) else nodes)
  {
    assert n in nodes ==> Linked(h, nodes, k) && (k > 0 ==> Linked(h, nodes, k - 1));
    if n.pprev != Nowhere {
      ghost var s := RemoveAt(nodes, k);
      WithoutNode(nodes, k);
      var next, pprev := n.next, n.pprev;
      assert next == NodeAt(nodes, k + 1);
      Store(pprev, next);
      if next != null {
        assert next in nodes;
        next.pprev := pprev;
      }
      n.next, n.pprev := null, Nowhere;
      forall i | 0 <= i < |s| ensures Linked(h, s, i) {
        assert i < k ==> old(Linked(h, nodes, i));
        assert i >= k ==> old(Linked(h, nodes, i + 1));
      }
    }
  }

  // ---------------------------------------------------------------- any mix of operations

  datatype Edit =
    | AddHead(n: HlistNode)
    | AddBefore(n: HlistNode, next: HlistNode)
    | AddAfter(n: HlistNode, next: HlistNode)
    | DelInit(n: HlistNode)

  ghost function Position(nodes: seq<HlistNode>, n: HlistNode): (k: nat)
    requires n in nodes
    ensures k < |nodes| && nodes[k] == n
  {
    if nodes[0] == n then 0 else 1 + Position(nodes[1..], n)
  }

  /** What the C functions demand of their arguments. */
  ghost predicate Legal(nodes: seq<HlistNode>, e: Edit) {
    match e
    case AddHead(n) => n !in nodes
    case AddBefore(n, next) => n !in nodes && next in nodes
    case AddAfter(n, next) => n in nodes && next !in nodes
    case DelInit(_) => true
  }

  ghost function Edited(nodes: seq<HlistNode>, e: Edit): seq<HlistNode>
    requires Legal(nodes, e)
  {
    match e
    case AddHead(n) => [n] + nodes
    case AddBefore(n, next) => var k := Position(nodes, next); nodes[..k] + [n] + nodes[k..]
    case AddAfter(n, next) => var k := Position(nodes, n) + 1; nodes[..k] + [next] + nodes[k..]
    case DelInit(n) => if n in nodes then RemoveAt(nodes, Position(nodes, n)) else nodes
  }

  /** Where each edit takes place, whichever way the position is found. */
  lemma {:induction false} EditedPlaces(nodes: seq<HlistNode>, e: Edit, k: nat)
    requires Distinct(nodes) && Legal(nodes, e)
    ensures match e
            case AddHead(n) => Edited(nodes, e) == [n] + nodes
            case AddBefore(n, next) =>
              k < |nodes| && nodes[k] == next ==> Edited(nodes, e) == nodes[..k] + [n] + nodes[k..]
            case AddAfter(n, next) =>
              k < |nodes| && nodes[k] == n ==> Edited(nodes, e) == nodes[..k + 1] + [next] + nodes[k + 1..]
            case DelInit(n) =>
              && (n !in nodes ==> Edited(nodes, e) == nodes)
              && (k < |nodes| && nodes[k] == n ==> Edited(nodes, e) == nodes[..k] + nodes[k + 1..])
  {
    var at := if e.AddBefore? then e.next else e.n;
    if !e.AddHead? && k < |nodes| && nodes[k] == at {
      assert Position(nodes, at) == k;
    }
  }

  ghost predicate AllLegal(nodes: seq<HlistNode>, es: seq<Edit>)
    decreases |es|
  {
    es == [] || (Legal(nodes, es[0]) && AllLegal(Edited(nodes, es[0]), es[1..]))
  }

  ghost function AllEdited(nodes: seq<HlistNode>, es: seq<Edit>): seq<HlistNode>
    requires AllLegal(nodes, es)
    decreases |es|
  {
    if es == [] then nodes else AllEdited(Edited(nodes, es[0]), es[1..])
  }

  /** The chain, and around it the nodes that are in no chain and know it. */
  ghost predicate Within(h: HlistHead, nodes: seq<HlistNode>, pool: set<HlistNode>)
    reads h, nodes, pool
  {
    && Chain(h, nodes) && (forall x :: x in nodes ==> x in pool)
    && (forall x :: x in pool && x !in nodes ==> x.pprev == Nowhere)
  }

  ghost predicate Mentions(e: Edit, pool: set<HlistNode>) {
    e.n in pool && ((e.AddBefore? || e.AddAfter?) ==> e.next in pool)
  }

  lemma {:induction false} InsertedMembers(nodes: seq<HlistNode>, n: HlistNode, k: nat)
    requires k <= |nodes|
    ensures forall x :: x in nodes[..k] + [n] + nodes[k..] <==> x in nodes || x == n
  {
    assert nodes == nodes[..k] + nodes[k..];
  }

  lemma {:induction false} RemovedMembers(nodes: seq<HlistNode>, k: nat)
    requires Distinct(nodes) && k < |nodes|
    ensures forall x :: x in RemoveAt(nodes, k) <==> x in nodes && x != nodes[k]
  {
    assert nodes == nodes[..k] + ([nodes[k]] + nodes[k + 1..]);
    assert nodes[k] !in nodes[..k] && nodes[k] !in nodes[k + 1..];
    hide Distinct;
  }

  /** Only the inserted node joins the chain, and only the deleted one leaves it. */
  lemma {:induction false} EditedMembers(nodes: seq<HlistNode>, e: Edit)
    requires Distinct(nodes) && Legal(nodes, e)
    ensures forall x :: x in Edited(nodes, e) <==>
                        if e.DelInit? then x in nodes && x != e.n
                        else x in nodes || x == if e.AddAfter? then e.next else e.n
  {
    hide Distinct, RemoveAt;
    match e {
      case AddHead(n) =>
      case AddBefore(n, next) => InsertedMembers(nodes, n, Position(nodes, next));
      case AddAfter(n, next) => InsertedMembers(nodes, next, Position(nodes, n) + 1);
      case DelInit(n) =>
        if n in nodes {
          RemovedMembers(nodes, Position(nodes, n));
        }
    }
  }

  method StepAddHead(h: HlistHead, n: HlistNode, ghost nodes: seq<HlistNode>, ghost pool: set<HlistNode>)
    requires Within(h, nodes, pool) && Legal(nodes, AddHead(n)) && Mentions(AddHead(n), pool)
    modifies h, pool
    ensures Within(h, Edited(nodes, AddHead(n)), pool)
  {
    EditedMembers(nodes, AddHead(n));
    hide Chain;
    HlistAddHead(n, h, nodes);
  }

  method StepAddBefore(h: HlistHead, n: HlistNode, next: HlistNode,
                       ghost nodes: seq<HlistNode>, ghost pool: set<HlistNode>)
    requires Within(h, nodes, pool) && Legal(nodes, AddBefore(n, next)) && Mentions(AddBefore(n, next), pool)
    modifies h, pool
    ensures Within(h, Edited(nodes, AddBefore(n, next)), pool)
  {
    EditedMembers(nodes, AddBefore(n, next));
    hide Chain;
    HlistAddBefore(n, next, h, nodes, Position(nodes, next));
  }

  method StepAddAfter(h: HlistHead, n: HlistNode, next: HlistNode,
                      ghost nodes: seq<HlistNode>, ghost pool: set<HlistNode>)
    requires Within(h, nodes, pool) && Legal(nodes, AddAfter(n, next)) && Mentions(AddAfter(n, next), pool)
    modifies h, pool
    ensures Within(h, Edited(nodes, AddAfter(n, next)), pool)
  {
    EditedMembers(nodes, AddAfter(n, next));
    hide Chain;
    HlistAddAfter(n, next, h, nodes, Position(nodes, n));
  }

  method StepDelInit(h: HlistHead, n: HlistNode, ghost nodes: seq<HlistNode>, ghost pool: set<HlistNode>)
    requires Within(h, nodes, pool) && Legal(nodes, DelInit(n)) && Mentions(DelInit(n), pool)
    modifies h, pool
    ensures Within(h, Edited(nodes, DelInit(n)), pool)
  {
    EditedMembers(nodes, DelInit(n));
    hide Chain;
    HlistDelInit(n, h, nodes, if n in nodes then Position(nodes, n) else 0);
  }

  method Step(h: HlistHead, e: Edit, ghost nodes: seq<HlistNode>, ghost pool: set<HlistNode>)
    requires Within(h, nodes, pool) && Legal(nodes, e) && Mentions(e, pool)
    modifies h, pool
    ensures Within(h, Edited(nodes, e), pool)
  {
    hide *;
    match e {
      case AddHead(n) => StepAddHead(h, n, nodes, pool);
      case AddBefore(n, next) => StepAddBefore(h, n, next, nodes, pool);
      case AddAfter(n, next) => StepAddAfter(h, n, next, nodes, pool);
      case DelInit(n) => StepDelInit(h, n, nodes, pool);
    }
  }

  /** After any mix, the chain's sequence is the one the steps spell out, and every linked node
      still names the one slot that points at it. */
  method RunAll(h: HlistHead, es: seq<Edit>, ghost nodes: seq<HlistNode>, ghost pool: set<HlistNode>)
    requires Within(h, nodes, pool) && AllLegal(nodes, es) && forall e :: e in es ==> Mentions(e, pool)
    modifies h, pool
    ensures Within(h, AllEdited(nodes, es), pool)
  {
    ghost var now := nodes;
    for i := 0 to |es|
      invariant Within(h, now, pool)
      invariant AllLegal(now, es[i..]) && AllEdited(now, es[i..]) == AllEdited(nodes, es)
    {
      assert es[i..][0] == es[i] && es[i..][1..] == es[i + 1..];
      Step(h, es[i], now, pool);
      now := Edited(now, es[i]);
    }
  }
}

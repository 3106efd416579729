/** Any mix of list operations over any number of rings: the specification is a map from
    each head to the entries after it, and the pointers follow it step by step. */
module Lists {
  import opened Rings

  // ---------------------------------------------------------------- the specification

  datatype Op<N> =
    | Add(node: N, head: N)
    | AddTail(node: N, head: N)
    | Del(node: N)
    | DelInit(node: N)
    | Move(node: N, head: N)
    | MoveTail(node: N, head: N)
    | SpliceInit(list: N, head: N)

  ghost predicate InSome<N>(rings: map<N, seq<N>>, node: N) {
    exists h :: h in rings && node in rings[h]
  }

  /** `node` is a head or an entry somewhere. */
  ghost predicate Present<N>(rings: map<N, seq<N>>, node: N) {
    node in rings || InSome(rings, node)
  }

  /** Every node is one head or one entry of one ring. */
  ghost predicate Partition<N>(rings: map<N, seq<N>>) {
    && (forall h :: h in rings ==> Distinct(rings[h]) && !InSome(rings, h))
    && (forall g, h, x :: g in rings && h in rings && x in rings[g] && x in rings[h] ==> g == h)
  }

  ghost function Without<N>(s: seq<N>, node: N): (r: seq<N>)
    ensures node !in s ==> r == s
    ensures forall x :: x in r ==> x in s
    ensures forall x :: x in s && x != node ==> x in r
  {
    if s == [] then []
    else if s[0] == node then s[1..]
    else [s[0]] + Without(s[1..], node)
  }

  /** The family once `node` belongs to no ring. */
  ghost function Detach<N>(rings: map<N, seq<N>>, node: N): map<N, seq<N>> {
    map h | h in rings && h != node :: Without(rings[h], node)
  }

  /** `node` is nobody's head, or the head of nothing. */
  ghost predicate Loose<N>(rings: map<N, seq<N>>, node: N) {
    node in rings ==> rings[node] == []
  }

  ghost predicate EmptyHead<N>(rings: map<N, seq<N>>, node: N) {
    node in rings && rings[node] == []
  }

  /** What the C functions demand of their arguments. */
  ghost predicate Legal<N>(rings: map<N, seq<N>>, op: Op<N>) {
    match op
    case Add(n, h) => h in rings && n != h && Loose(rings, n) && !InSome(rings, n)
    case AddTail(n, h) => h in rings && n != h && Loose(rings, n) && !InSome(rings, n)
    case Del(n) => InSome(rings, n) || EmptyHead(rings, n)
    case DelInit(n) => InSome(rings, n) || EmptyHead(rings, n)
    case Move(n, h) => h in rings && n != h && (InSome(rings, n) || EmptyHead(rings, n))
    case MoveTail(n, h) => h in rings && n != h && (InSome(rings, n) || EmptyHead(rings, n))
    case SpliceInit(l, h) => l in rings && h in rings && l != h
  }

  ghost function Apply<N>(rings: map<N, seq<N>>, op: Op<N>): map<N, seq<N>>
    requires Legal(rings, op)
  {
    match op
    case Add(n, h) => var d := Detach(rings, n); d[h := [n] + d[h]]
    case AddTail(n, h) => var d := Detach(rings, n); d[h := d[h] + [n]]
    case Del(n) => Detach(rings, n)
    case DelInit(n) => Detach(rings, n)[n := []]
    case Move(n, h) => var d := Detach(rings, n); d[h := [n] + d[h]]
    case MoveTail(n, h) => var d := Detach(rings, n); d[h := d[h] + [n]]
    case SpliceInit(l, h) => rings[h := rings[l] + rings[h]][l := []]
  }

  ghost function Run<N>(rings: map<N, seq<N>>, ops: seq<Op<N>>): map<N, seq<N>>
    requires AllLegal(rings, ops)
    decreases |ops|
  {
    if ops == [] then rings else Run(Apply(rings, ops[0]), ops[1..])
  }

  ghost predicate AllLegal<N>(rings: map<N, seq<N>>, ops: seq<Op<N>>)
    decreases |ops|
  {
    ops == [] || (Legal(rings, ops[0]) && AllLegal(Apply(rings, ops[0]), ops[1..]))
  }

  // ---------------------------------------------------------------- laws of the specification

  lemma {:induction false} WithoutAt<N>(s: seq<N>, k: nat)
    requires Distinct(s) && k < |s|
    ensures Without(s, s[k]) == RemoveAt(s, k)
  {
    if k == 0 {
    } else {
      WithoutAt(s[1..], k - 1);
      assert RemoveAt(s, k) == [s[0]] + RemoveAt(s[1..], k - 1);
    }
  }

  lemma {:induction false} WithoutMember<N>(s: seq<N>, node: N)
    requires Distinct(s)
    ensures Distinct(Without(s, node)) && node !in Without(s, node)
  {
    if node in s {
      var k :| 0 <= k < |s| && s[k] == node;
      WithoutAt(s, k);
    }
  }

  lemma {:induction false} DetachPartition<N>(rings: map<N, seq<N>>, node: N)
    requires Partition(rings)
    requires InSome(rings, node) || Loose(rings, node)
    ensures var d := Detach(rings, node);
            Partition(d) && node !in d && !InSome(d, node)
    ensures forall x :: InSome(Detach(rings, node), x) <==> InSome(rings, x) && x != node
    ensures forall x :: Present(Detach(rings, node), x) <==> Present(rings, x) && x != node
  {
    var d := Detach(rings, node);
    forall h | h in rings ensures Distinct(Without(rings[h], node)) && node !in Without(rings[h], node) {
      WithoutMember(rings[h], node);
    }
    forall x ensures InSome(d, x) <==> InSome(rings, x) && x != node {
      if InSome(rings, x) && x != node {
        var h :| h in rings && x in rings[h];
        assert h != node;
        assert h in d && x in d[h];
      }
    }
  }

  lemma {:induction false} InsertPartition<N>(rings: map<N, seq<N>>, node: N, head: N, s: seq<N>)
    requires Partition(rings) && node !in rings && !InSome(rings, node) && head in rings
    requires Distinct(s) && forall x :: x in s <==> x in rings[head] || x == node
    ensures Partition(rings[head := s])
    ensures forall x :: Present(rings[head := s], x) <==> Present(rings, x) || x == node
  {
    var r := rings[head := s];
    forall x ensures InSome(r, x) <==> InSome(rings, x) || x == node {
      if x == node {
        assert x in r[head];
      } else if InSome(rings, x) {
        var h :| h in rings && x in rings[h];
        assert x in r[h];
      }
    }
  }

  /** `s` is `was` with `node`, if it was there, taken out of its place. */
  ghost predicate Lost<N>(was: seq<N>, s: seq<N>, node: N) {
    && (node !in was ==> s == was)
    && forall k :: 0 <= k < |was| && was[k] == node ==> s == was[..k] + was[k + 1..]
  }

  /** Every ring but those in `but` has lost the node, and nothing else. */
  ghost predicate Left<N>(was: map<N, seq<N>>, rings: map<N, seq<N>>, node: N, but: set<N>) {
    forall g :: g in rings && g !in but ==> g in was && Lost(was[g], rings[g], node)
  }

  /** The node stands before, or behind, what is left of the old ring. */
  ghost predicate First<N>(was: seq<N>, s: seq<N>, node: N) {
    s != [] && s[0] == node && Lost(was, s[1..], node)
  }

  ghost predicate Last<N>(was: seq<N>, s: seq<N>, node: N) {
    s != [] && s[|s| - 1] == node && Lost(was, s[..|s| - 1], node)
  }

  /** What each operation does, ring by ring. */
  lemma {:induction false} ApplyPlaces<N>(rings: map<N, seq<N>>, op: Op<N>)
    requires Partition(rings) && Legal(rings, op)
    ensures var r := Apply(rings, op);
            match op
            case Add(n, h) =>
              r.Keys == rings.Keys - {n} && r[h] == [n] + rings[h] && forall g :: g in r && g != h ==> r[g] == rings[g]
            case AddTail(n, h) =>
              r.Keys == rings.Keys - {n} && r[h] == rings[h] + [n] && forall g :: g in r && g != h ==> r[g] == rings[g]
            case Del(n) => r.Keys == rings.Keys - {n} && Left(rings, r, n, {})
            case DelInit(n) => r.Keys == rings.Keys + {n} && r[n] == [] && Left(rings, r, n, {n})
            case Move(n, h) =>
              r.Keys == rings.Keys - {n} && First(rings[h], r[h], n) && Left(rings, r, n, {h})
            case MoveTail(n, h) =>
              r.Keys == rings.Keys - {n} && Last(rings[h], r[h], n) && Left(rings, r, n, {h})
            case SpliceInit(l, h) =>
              && r.Keys == rings.Keys && r[h] == rings[l] + rings[h] && r[l] == []
              && forall g :: g in r && g != l && g != h ==> r[g] == rings[g]
  {
    match op {
      case Add(n, h) => LooseLeft(rings, n);
      case AddTail(n, h) => LooseLeft(rings, n);
      case Del(n) => DetachLeft(rings, n);
      case DelInit(n) => DetachLeft(rings, n);
      case Move(n, h) => MovedPlaces(rings, n, h);
      case MoveTail(n, h) => MovedPlaces(rings, n, h);
      case SpliceInit(l, h) =>
    }
    hide Detach, Partition, Lost, First, Last, Loose, EmptyHead, InSome;
  }

  lemma {:induction false} MovedPlaces<N>(rings: map<N, seq<N>>, node: N, head: N)
    requires Partition(rings) && head in rings && node != head
    ensures var d := Detach(rings, node);
            && head in d && d.Keys == rings.Keys - {node}
            && Left(rings, d[head := [node] + d[head]], node, {head})
            && Left(rings, d[head := d[head] + [node]], node, {head})
            && First(rings[head], [node] + d[head], node)
            && Last(rings[head], d[head] + [node], node)
  {
    DetachLeft(rings, node);
    var d := Detach(rings, node);
    assert ([node] + d[head])[1..] == d[head] && (d[head] + [node])[..|d[head]|] == d[head];
    hide Without, Partition, Lost;
  }

  /** A node in no ring is missed by none. */
  lemma {:induction false} LooseLeft<N>(rings: map<N, seq<N>>, node: N)
    requires !InSome(rings, node)
    ensures Detach(rings, node).Keys == rings.Keys - {node}
    ensures forall g :: g in Detach(rings, node) ==> Detach(rings, node)[g] == rings[g]
  {
    forall g | g in Detach(rings, node) ensures Detach(rings, node)[g] == rings[g] {
      assert node !in rings[g];
    }
  }

  lemma {:induction false} DetachLeft<N>(rings: map<N, seq<N>>, node: N)
    requires Partition(rings)
    ensures Left(rings, Detach(rings, node), node, {}) && Detach(rings, node).Keys == rings.Keys - {node}
  {
    forall g, k | g in Detach(rings, node) && 0 <= k < |rings[g]| && rings[g][k] == node
      ensures Detach(rings, node)[g] == rings[g][..k] + rings[g][k + 1..]
    {
      WithoutAt(rings[g], k);
    }
  }

  /** No step puts a node in two places, and only the steps that say so lose or gain one. */
  lemma {:induction false} ApplyPartition<N>(rings: map<N, seq<N>>, op: Op<N>)
    requires Partition(rings) && Legal(rings, op)
    ensures Partition(Apply(rings, op))
    ensures forall x :: Present(Apply(rings, op), x) <==>
                        if op.Del? then Present(rings, x) && x != op.node
                        else Present(rings, x) || ((op.Add? || op.AddTail?) && x == op.node)
  {
    if op.SpliceInit? {
      SplicePartition(rings, op.list, op.head);
    } else {
      DetachPartition(rings, op.node);
      match op {
        case Add(n, h) => PrependPartition(Detach(rings, n), n, h);
        case Move(n, h) => PrependPartition(Detach(rings, n), n, h);
        case AddTail(n, h) => AppendPartition(Detach(rings, n), n, h);
        case MoveTail(n, h) => AppendPartition(Detach(rings, n), n, h);
        case DelInit(n) => EmptyRingPartition(Detach(rings, n), n);
        case Del(n) =>
      }
    }
  }

  lemma {:induction false} EmptyRingPartition<N>(rings: map<N, seq<N>>, node: N)
    requires Partition(rings) && !Present(rings, node)
    ensures Partition(rings[node := []])
    ensures forall x :: Present(rings[node := []], x) <==> Present(rings, x) || x == node
  {
    var r := rings[node := []];
    forall x | InSome(rings, x) ensures InSome(r, x) {
      var h :| h in rings && x in rings[h];
      assert x in r[h];
    }
    forall x | InSome(r, x) ensures InSome(rings, x) {
      var h :| h in r && x in r[h];
      assert x in rings[h];
    }
  }

  lemma {:induction false} PrependPartition<N>(rings: map<N, seq<N>>, node: N, head: N)
    requires Partition(rings) && !Present(rings, node) && head in rings
    ensures Partition(rings[head := [node] + rings[head]])
    ensures forall x :: Present(rings[head := [node] + rings[head]], x) <==> Present(rings, x) || x == node
  {
    DistinctConcat([node], rings[head]);
    InsertPartition(rings, node, head, [node] + rings[head]);
  }

  lemma {:induction false} AppendPartition<N>(rings: map<N, seq<N>>, node: N, head: N)
    requires Partition(rings) && !Present(rings, node) && head in rings
    ensures Partition(rings[head := rings[head] + [node]])
    ensures forall x :: Present(rings[head := rings[head] + [node]], x) <==> Present(rings, x) || x == node
  {
    DistinctConcat(rings[head], [node]);
    InsertPartition(rings, node, head, rings[head] + [node]);
  }

  lemma {:induction false} SplicePartition<N>(rings: map<N, seq<N>>, l: N, h: N)
    requires Partition(rings) && l in rings && h in rings && l != h
    ensures var r := rings[h := rings[l] + rings[h]][l := []];
            Partition(r) && forall x :: Present(r, x) <==> Present(rings, x)
  {
    var r := rings[h := rings[l] + rings[h]][l := []];
    DistinctConcat(rings[l], rings[h]);
    forall x ensures InSome(r, x) <==> InSome(rings, x) {
      if InSome(rings, x) {
        var g :| g in rings && x in rings[g];
        assert x in r[if g == l then h else g];
      }
    }
    forall g, k, x | g in r && k in r && x in r[g] && x in r[k] ensures g == k {
      assert x in rings[l] || x in rings[g];
      assert x in rings[l] || x in rings[k];
    }
  }

  // ---------------------------------------------------------------- the pointers

  ghost predicate AllRings<T>(rings: RingMap<T>, nodes: set<ListHead<T>>)
    reads nodes
  {
    forall h :: h in rings ==> h in nodes && (forall x :: x in rings[h] ==> x in nodes) && Ring(h, rings[h])
  }

  type RingMap<!T> = map<ListHead<T>, seq<ListHead<T>>>

  /** The links of a set of nodes, kept as a value. */
  type Links<!T> = map<ListHead<T>, (ListHead?<T>, ListHead?<T>)>

  ghost function Snapshot<T>(nodes: set<ListHead<T>>): Links<T>
    reads nodes
  {
    map x | x in nodes :: (x.next, x.prev)
  }

  ghost predicate RingIn<T>(links: Links<T>, head: ListHead<T>, nodes: seq<ListHead<T>>) {
    var c := Cycle(head, nodes);
    && head !in nodes && Distinct(nodes)
    && (forall i :: 0 <= i <= |nodes| + 1 ==> c[i] in links)
    && (forall i :: 0 <= i <= |nodes| ==> links[c[i]].0 == c[i + 1])
    && (forall i :: 1 <= i <= |nodes| + 1 ==> links[c[i]].1 == c[i - 1])
  }

  ghost predicate AllRingsIn<T>(rings: RingMap<T>, links: Links<T>) {
    forall h :: h in rings ==> RingIn(links, h, rings[h])
  }

  lemma {:induction false} TakeSnapshot<T>(rings: RingMap<T>, nodes: set<ListHead<T>>)
    requires AllRings(rings, nodes)
    ensures AllRingsIn(rings, Snapshot(nodes))
  {
    forall h | h in rings ensures RingIn(Snapshot(nodes), h, rings[h]) {
      var c := Cycle(h, rings[h]);
      assert forall i :: 0 <= i <= |rings[h]| + 1 ==> c[i] == h || c[i] in rings[h];
    }
  }

  /** Writing to one ring leaves every other ring alone. */
  lemma {:induction false} OthersKept<T>(rings: RingMap<T>, h: ListHead<T>, nodes: set<ListHead<T>>, was: Links<T>)
    requires was.Keys == nodes && AllRingsIn(rings, was) && Partition(rings) && h in rings
    requires forall x :: x in nodes && x != h && x !in rings[h] ==> (x.next, x.prev) == was[x]
    ensures AllRings(rings - {h}, nodes)
  {
    forall g | g in rings && g != h
      ensures g in nodes && (forall x :: x in rings[g] ==> x in nodes) && Ring(g, rings[g])
    {
      var n, c := |rings[g]|, Cycle(g, rings[g]);
      assert RingIn(was, g, rings[g]);
      assert g == c[0] && forall i :: 0 <= i < n ==> rings[g][i] == c[i + 1];
      forall i | 0 <= i <= n + 1 ensures (c[i].next, c[i].prev) == was[c[i]] {
        assert c[i] == g || c[i] in rings[g];
      }
    }
  }

  lemma {:induction false} AddedRings<T>(rings: RingMap<T>, node: ListHead<T>, head: ListHead<T>, s: seq<ListHead<T>>,
                      nodes: set<ListHead<T>>, was: Links<T>)
    requires was.Keys == nodes && AllRingsIn(rings, was) && Partition(rings) && head in rings && node in nodes
    requires !Present(rings, node) && Ring(head, s)
    requires head in nodes && forall x :: x in s ==> x == node || x in rings[head]
    requires forall x :: x in rings[head] ==> x in nodes
    requires forall x :: x in nodes && x != head && x !in rings[head] && x != node ==> (x.next, x.prev) == was[x]
    ensures AllRings(rings[head := s], nodes)
  {
    forall h | h in rings ensures RingIn(was - {node}, h, rings[h]) {
      var c := Cycle(h, rings[h]);
      assert RingIn(was, h, rings[h]);
      assert forall i :: 0 <= i <= |rings[h]| + 1 ==> c[i] == h || c[i] in rings[h];
    }
    OthersKept(rings, head, nodes - {node}, was - {node});
    var r := rings[head := s];
    forall g | g in r ensures g in nodes && (forall x :: x in r[g] ==> x in nodes) && Ring(g, r[g]) {
      assert g != head ==> r[g] == (rings - {head})[g];
    }
  }

  lemma {:induction false} OutsiderKept<T>(rings: RingMap<T>, node: ListHead<T>, nodes: set<ListHead<T>>, was: Links<T>)
    requires was.Keys == nodes && AllRingsIn(rings, was) && !Present(rings, node)
    requires forall x :: x in nodes && x != node ==> (x.next, x.prev) == was[x]
    ensures AllRings(rings, nodes)
  {
    forall g | g in rings ensures g in nodes && (forall x :: x in rings[g] ==> x in nodes) && Ring(g, rings[g]) {
      var n, c := |rings[g]|, Cycle(g, rings[g]);
      assert RingIn(was, g, rings[g]);
      assert g == c[0] && forall i :: 0 <= i < n ==> rings[g][i] == c[i + 1];
      forall i | 0 <= i <= n + 1 ensures (c[i].next, c[i].prev) == was[c[i]] {
        assert c[i] == g || c[i] in rings[g];
      }
    }
  }

  lemma {:induction false} SplicedRings<T>(rings: RingMap<T>, list: ListHead<T>, head: ListHead<T>,
                                           nodes: set<ListHead<T>>, was: Links<T>)
    requires was.Keys == nodes && AllRingsIn(rings, was) && Partition(rings)
    requires list in rings && head in rings && list != head
    requires Ring(list, []) && Ring(head, rings[list] + rings[head])
    requires forall x :: x in nodes && x != head && x !in rings[head] && x != list && x !in rings[list] ==>
                           (x.next, x.prev) == was[x]
    ensures AllRings(rings[head := rings[list] + rings[head]][list := []], nodes)
  {
    var r := rings[head := rings[list] + rings[head]][list := []];
    forall g | g in r ensures g in nodes && (forall x :: x in r[g] ==> x in nodes) && Ring(g, r[g]) {
      MembersIn(was, g, rings[g]);
      MembersIn(was, list, rings[list]);
      if g != head && g != list {
        var n, c := |rings[g]|, Cycle(g, rings[g]);
        assert RingIn(was, g, rings[g]);
        forall i | 0 <= i <= n + 1 ensures (c[i].next, c[i].prev) == was[c[i]] {
          assert c[i] == g || c[i] in rings[g];
        }
      }
    }
  }

  lemma {:induction false} MembersIn<T>(links: Links<T>, head: ListHead<T>, nodes: seq<ListHead<T>>)
    requires RingIn(links, head, nodes)
    ensures head in links && forall x :: x in nodes ==> x in links
  {
    var c := Cycle(head, nodes);
    assert head == c[0] && forall i :: 0 <= i < |nodes| ==> nodes[i] == c[i + 1];
  }

  ghost predicate Placed<N>(rings: map<N, seq<N>>, node: N, h: N, k: nat) {
    h in rings && if node == h then rings[h] == [] else k < |rings[h]| && rings[h][k] == node
  }

  lemma {:induction false} Owner<N>(rings: map<N, seq<N>>, node: N) returns (h: N, k: nat)
    requires Partition(rings) && (InSome(rings, node) || EmptyHead(rings, node))
    ensures Placed(rings, node, h, k)
  {
    h, k := node, 0;
    if InSome(rings, node) {
      h :| h in rings && node in rings[h];
      k :| 0 <= k < |rings[h]| && rings[h][k] == node;
    }
  }

  lemma {:induction false} DetachRings<T>(rings: RingMap<T>, node: ListHead<T>, h: ListHead<T>, k: nat,
                       nodes: set<ListHead<T>>)
    requires Partition(rings) && Placed(rings, node, h, k)
    requires h in nodes && forall x :: x in rings[h] ==> x in nodes
    requires AllRings(rings - {h}, nodes)
    requires node != h ==> Ring(h, RemoveAt(rings[h], k))
    ensures AllRings(Detach(rings, node), nodes) && Partition(Detach(rings, node))
    ensures !Present(Detach(rings, node), node)
  {
    DetachPartition(rings, node);
    var d := Detach(rings, node);
    forall g | g in d ensures g in nodes && (forall x :: x in d[g] ==> x in nodes) && Ring(g, d[g]) {
      if g == h {
        WithoutAt(rings[h], k);
      } else {
        assert node !in rings[g];
      }
    }
  }

  /** A set of list nodes and, as ghost state, the rings they form. */
  class Family<T> {
    ghost const nodes: set<ListHead<T>>
    ghost var rings: RingMap<T>

    ghost predicate Valid()
      reads this, nodes
    {
      AllRings(rings, nodes) && Partition(rings)
    }

    constructor (ghost nodes: set<ListHead<T>>)
      ensures Valid() && this.nodes == nodes && rings == map[]
    {
      this.nodes := nodes;
      rings := map[];
    }

    /** `INIT_LIST_HEAD` on a node no ring holds yet. */
    method Init(head: ListHead<T>)
      requires Valid() && head in nodes && !Present(rings, head)
      modifies this, nodes
      ensures Valid() && rings == old(rings)[head := []]
    {
      InitListHead(head);
      EmptyRingPartition(rings, head);
      rings := rings[head := []];
    }

    /** A node that heads an empty ring may be added elsewhere: its own links are overwritten. */
    ghost method ForgetEmpty(node: ListHead<T>)
      requires Valid() && Loose(rings, node) && !InSome(rings, node)
      modifies this
      ensures Valid() && rings == Detach(old(rings), node) && !Present(rings, node)
    {
      DetachPartition(rings, node);
      ghost var was: RingMap<T> := rings;
      rings := Detach(rings, node);
      assert forall h :: h in rings ==> node !in was[h] && rings[h] == was[h];
    }

    /** The two poison stores of `list_del`. */
    method Poison(node: ListHead<T>)
      requires Valid() && node in nodes && !Present(rings, node)
      modifies this, nodes
      ensures Valid() && rings == old(rings)
    {
      ghost var links: Links<T> := Snapshot(nodes);
      TakeSnapshot(rings, nodes);
      node.next, node.prev := null, null;
      OutsiderKept(rings, node, nodes, links);
    }

    /** `__list_del(node->prev, node->next)`. */
    method Unlink(node: ListHead<T>)
      requires Valid() && (InSome(rings, node) || EmptyHead(rings, node))
      modifies this, nodes
      ensures Valid() && rings == Detach(old(rings), node) && !Present(rings, node)
    {
      ghost var h, k := Owner(rings, node);
      UnlinkAt(node, h, k);
    }

    method UnlinkAt(node: ListHead<T>, ghost h: ListHead<T>, ghost k: nat)
      requires Valid() && Placed(rings, node, h, k)
      modifies this, nodes
      ensures Valid() && rings == Detach(old(rings), node) && !Present(rings, node)
    {
      ghost var links: Links<T> := Snapshot(nodes);
      ghost var was: RingMap<T> := rings;
      TakeSnapshot(was, nodes);
      rings := Detach(was, node);
      ListUnlink(node, h, was[h], k);
      OthersKept(was, h, nodes, links);
      DetachRings(was, node, h, k, nodes);
    }

    /** `list_add` to a ring of this family, of a node that is in none of them. */
    method Add(node: ListHead<T>, head: ListHead<T>)
      requires Valid() && node in nodes && node != head && head in rings && !Present(rings, node)
      modifies this, nodes
      ensures Valid() && rings == old(rings)[head := [node] + old(rings)[head]]
    {
      ghost var links: Links<T> := Snapshot(nodes);
      ghost var was: RingMap<T> := rings;
      TakeSnapshot(was, nodes);
      rings := was[head := [node] + was[head]];
      ListAdd(node, head, was[head]);
      AddedRings(was, node, head, rings[head], nodes, links);
      PrependPartition(was, node, head);
    }

    method AddTail(node: ListHead<T>, head: ListHead<T>)
      requires Valid() && node in nodes && node != head && head in rings && !Present(rings, node)
      modifies this, nodes
      ensures Valid() && rings == old(rings)[head := old(rings)[head] + [node]]
    {
      ghost var links: Links<T> := Snapshot(nodes);
      ghost var was: RingMap<T> := rings;
      TakeSnapshot(was, nodes);
      rings := was[head := was[head] + [node]];
      ListAddTail(node, head, was[head]);
      AddedRings(was, node, head, rings[head], nodes, links);
      AppendPartition(was, node, head);
    }

    method SpliceInit(list: ListHead<T>, head: ListHead<T>)
      requires Valid() && list in rings && head in rings && list != head
      modifies this, nodes
      ensures Valid() && rings == old(rings)[head := old(rings)[list] + old(rings)[head]][list := []]
    {
      ghost var links: Links<T> := Snapshot(nodes);
      ghost var was: RingMap<T> := rings;
      TakeSnapshot(was, nodes);
      rings := was[head := was[list] + was[head]][list := []];
      ListSpliceInit(list, was[list], head, was[head]);
      SplicedRings(was, list, head, nodes, links);
      SplicePartition(was, list, head);
    }

    method Del(node: ListHead<T>)
      requires Valid() && (InSome(rings, node) || EmptyHead(rings, node)) && node in nodes
      modifies this, nodes
      ensures Valid() && rings == Apply(old(rings), Op.Del(node))
      ensures rings.Keys == old(rings).Keys - {node} && Left(old(rings), rings, node, {})
    {
      ApplyPlaces(rings, Op.Del(node));
      Unlink(node);
      Poison(node);
    }

    method DelInit(node: ListHead<T>)
      requires Valid() && (InSome(rings, node) || EmptyHead(rings, node)) && node in nodes
      modifies this, nodes
      ensures Valid() && rings == Apply(old(rings), Op.DelInit(node))
      ensures rings.Keys == old(rings).Keys + {node} && rings[node] == [] && Left(old(rings), rings, node, {node})
    {
      ApplyPlaces(rings, Op.DelInit(node));
      Unlink(node);
      Init(node);
    }

    method Move(node: ListHead<T>, head: ListHead<T>)
      requires Valid() && (InSome(rings, node) || EmptyHead(rings, node)) && node in nodes
      requires head in rings && node != head
      modifies this, nodes
      ensures Valid() && rings == Apply(old(rings), Op.Move(node, head))
      ensures rings.Keys == old(rings).Keys - {node} && Left(old(rings), rings, node, {head})
      ensures First(old(rings)[head], rings[head], node)
    {
      ApplyPlaces(rings, Op.Move(node, head));
      Unlink(node);
      Add(node, head);
    }

    method MoveTail(node: ListHead<T>, head: ListHead<T>)
      requires Valid() && (InSome(rings, node) || EmptyHead(rings, node)) && node in nodes
      requires head in rings && node != head
      modifies this, nodes
      ensures Valid() && rings == Apply(old(rings), Op.MoveTail(node, head))
      ensures rings.Keys == old(rings).Keys - {node} && Left(old(rings), rings, node, {head})
      ensures Last(old(rings)[head], rings[head], node)
    {
      ApplyPlaces(rings, Op.MoveTail(node, head));
      Unlink(node);
      AddTail(node, head);
    }

    /** One step: the statement sequence of the named C function. */
    method Step(op: Op<ListHead<T>>)
      requires Valid() && Legal(rings, op) && (op.SpliceInit? || op.node in nodes)
      modifies this, nodes
      ensures Valid() && rings == Apply(old(rings), op)
    {
      match op {
        case Add(n, h) =>
          ForgetEmpty(n);
          Add(n, h);
        case AddTail(n, h) =>
          ForgetEmpty(n);
          AddTail(n, h);
        case Del(n) => Del(n);
        case DelInit(n) => DelInit(n);
        case Move(n, h) => Move(n, h);
        case MoveTail(n, h) => MoveTail(n, h);
        case SpliceInit(l, h) => SpliceInit(l, h);
      }
    }

    /** Any legal mix of operations, from any family. */
    method RunAll(ops: seq<Op<ListHead<T>>>)
      requires Valid() && AllLegal(rings, ops) && forall op :: op in ops && !op.SpliceInit? ==> op.node in nodes
      modifies this, nodes
      ensures Valid() && rings == Run(old(rings), ops)
    {
      var i := 0;
      while i < |ops|
        invariant i <= |ops| && Valid()
        invariant AllLegal(rings, ops[i..]) && Run(rings, ops[i..]) == Run(old(rings), ops)
      {
        assert ops[i..][0] == ops[i] && ops[i..][1..] == ops[i + 1..];
        Step(ops[i]);
        i := i + 1;
      }
    }
  }
}

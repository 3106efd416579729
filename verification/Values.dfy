/** `values.c`: readings collected per sensor in a ring of nodes that hold growable arrays. */
module Values {
  import opened Text
  import opened Rings
  import opened Grouping

  const GROWTH: nat := 10

  /** `struct values_sensor`. */
  class ValuesSensor {
    const id: CString
    var nrAllocated: nat
    var nrValue: nat
    var value: array?<Value>

    /** `nrAllocated` is `nrValue` rounded up to a multiple of ten. */
    ghost predicate Valid()
      reads this, value
    {
      && nrAllocated % GROWTH == 0 && nrValue <= nrAllocated < nrValue + GROWTH
      && (value == null <==> nrAllocated == 0)
      && (value != null ==> value.Length == nrAllocated)
    }

    /** The first `nrValue` slots. */
    ghost function Contents(): seq<Value>
      reads this, value
      requires Valid()
    {
      if value == null then [] else value[..nrValue]
    }

    constructor (id: CString)
      ensures Valid() && this.id == id && value == null && Contents() == []
    {
      this.id := id;
      nrAllocated, nrValue, value := 0, 0, null;
    }

    /** `_sensor_value_push`. */
    method Push(v: Value)
      requires Valid()
      modifies this, value
      ensures Valid() && Contents() == old(Contents()) + [v]
      ensures value != null && (value == old(value) || fresh(value))
    {
      if nrAllocated == nrValue {
        nrAllocated := nrAllocated + GROWTH;
        var grown := new Value[nrAllocated];
        if value != null {
          forall i | 0 <= i < nrValue {
            grown[i] := value[i];
          }
        }
        value := grown;
      }
      value[nrValue] := v;
      nrValue := nrValue + 1;
    }
  }

  type Node = ListHead<ValuesSensor?>

  /** A sensor record holds a group: its id text, and its values in the first `nrValue` slots. */
  ghost predicate Holds(s: ValuesSensor, g: Group)
    reads s, s.value
  {
    s.Valid() && s.id.text == g.id && s.Contents() == g.values
  }

  /** No storage is shared between two records. */
  ghost predicate Apart(s: ValuesSensor, t: ValuesSensor)
    reads s, t
  {
    s != t && (s.value != null ==> s.value != t.value)
  }

  /** The records hold the groups, and `data` is all the storage they use. */
  ghost predicate Filled(ss: seq<ValuesSensor>, gs: seq<Group>, data: set<object>)
    reads data
  {
    && |ss| == |gs|
    && (forall s :: s in ss ==> s in data && (s.value != null ==> s.value in data))
    && (forall i :: 0 <= i < |ss| ==> Holds(ss[i], gs[i]))
    && (forall i, j :: 0 <= i < j < |ss| ==> Apart(ss[i], ss[j]))
  }

  lemma {:induction false} FilledAppend(ss: seq<ValuesSensor>, gs: seq<Group>, data: set<object>, s: ValuesSensor,
                                        g: Group)
    requires Filled(ss, gs, data) && s !in ss && s.value == null && Holds(s, g)
    ensures Filled(ss + [s], gs + [g], data + {s})
  {
  }

  /** The `calloc` of a `struct values_sensor` and its `list_add_tail`. */
  method NewSensor(id: CString, head: Node, ghost nodes: seq<Node>) returns (s: ValuesSensor, ghost link: Node)
    requires Ring(head, nodes)
    modifies head, nodes
    ensures fresh(s) && s.Valid() && s.id == id && s.value == null && s.Contents() == []
    ensures fresh(link) && link.entry == s && Ring(head, nodes + [link])
  {
    s := new ValuesSensor(id);
    var node := new ListHead<ValuesSensor?>(s);
    ListAddTail(node, head, nodes);
    link := node;
  }

  /** Pushing to one record changes that group alone. */
  method PushFilled(s: ValuesSensor, v: Value,
                    ghost ss: seq<ValuesSensor>, ghost gs: seq<Group>, ghost data: set<object>, ghost k: nat)
    requires Filled(ss, gs, data) && k < |ss| && ss[k] == s
    modifies s, s.value
    ensures s.value != null && (s.value == old(s.value) || fresh(s.value))
    ensures Filled(ss, gs[k := Group(gs[k].id, gs[k].values + [v])], data + {s.value})
  {
    assert Holds(s, gs[k]);
    ghost var slots := s.value;
    assert forall i :: 0 <= i < |ss| && i != k ==> ss[i] != s && (slots != null ==> ss[i].value != slots) by {
      assert forall i :: 0 <= i < k ==> Apart(ss[i], s);
      assert forall i :: k < i < |ss| ==> Apart(s, ss[i]);
    }
    s.Push(v);
    assert forall i :: 0 <= i < |ss| && i != k ==> Holds(ss[i], gs[i]);
  }

  /** `struct values`. */
  class SensorValues {
    const sensorsHead: Node
    ghost var nodes: seq<Node>
    ghost var sensors: seq<ValuesSensor>
    ghost var groups: seq<Group>
    ghost var data: set<object>
    ghost var Repr: set<object>

    ghost predicate Valid()
      reads this, Repr
      ensures Valid() ==> this in Repr
    {
      && this in Repr && sensorsHead in Repr
      && (forall n :: n in nodes ==> n in Repr && n !in data)
      && data <= Repr && this !in data && sensorsHead !in data
      && Ring(sensorsHead, nodes)
      && |nodes| == |sensors| && (forall i :: 0 <= i < |nodes| ==> nodes[i].entry == sensors[i])
      && Filled(sensors, groups, data)
    }

    /** The search loop of `_sensor_get`. */
    method SensorSearch(id: CString) returns (found: ValuesSensor?, ghost k: nat)
      requires Valid()
      ensures k <= |groups| && forall j :: 0 <= j < k ==> groups[j].id != id.text
      ensures if k < |groups| then found == sensors[k] && groups[k].id == id.text else found == null
      ensures found == null <==> forall j :: 0 <= j < |groups| ==> groups[j].id != id.text
      ensures found != null ==> found in sensors && found.id.text == id.text
    {
      RingLinks(sensorsHead, nodes, 0);
      var pos := sensorsHead.next;
      k := 0;
      while pos != sensorsHead
        invariant k <= |nodes| && pos == Cycle(sensorsHead, nodes)[k + 1]
        invariant forall j :: 0 <= j < k ==> groups[j].id != id.text
        decreases |nodes| - k
      {
        assert pos == nodes[k] && Holds(sensors[k], groups[k]);
        if pos.entry.id.text == id.text {
          return pos.entry, k;
        }
        RingLinks(sensorsHead, nodes, k + 1);
        pos := pos.next;
        k := k + 1;
      }
      found := null;
    }

    /** The `calloc` and `list_add_tail` of `_sensor_get`. */
    method SensorAppend(id: CString) returns (s: ValuesSensor)
      requires Valid()
      modifies Repr
      ensures Valid() && fresh(Repr - old(Repr))
      ensures groups == old(groups) + [Group(id.text, [])] && sensors == old(sensors) + [s]
    {
      ghost var link;
      s, link := NewSensor(id, sensorsHead, nodes);
      ghost var nodes0, sensors0, groups0, data0 := nodes, sensors, groups, data;
      ghost var g := Group(id.text, []);
      nodes, sensors, groups := nodes + [link], sensors + [s], groups + [g];
      data, Repr := data + {s}, Repr + {link, s};
      FilledAppend(sensors0, groups0, data0, s, g);
    }

    /** `_sensor_get`: the node with this id text, found or appended. */
    method SensorGet(id: CString) returns (s: ValuesSensor, ghost k: nat)
      requires Valid()
      modifies Repr
      ensures Valid() && fresh(Repr - old(Repr))
      ensures k < |sensors| && sensors[k] == s && groups[k].id == id.text
      ensures k <= |old(groups)| && forall j :: 0 <= j < k ==> old(groups)[j].id != id.text
      ensures groups == if k < |old(groups)| then old(groups) else old(groups) + [Group(id.text, [])]
    {
      var found;
      found, k := SensorSearch(id);
      if found != null {
        return found, k;
      }
      s := SensorAppend(id);
    }

    /** `_sensor_value_push` on the `k`-th record. */
    method PushTo(s: ValuesSensor, v: Value, ghost k: nat)
      requires Valid() && k < |sensors| && sensors[k] == s
      modifies Repr
      ensures Valid() && fresh(Repr - old(Repr))
      ensures sensors == old(sensors)
      ensures groups == old(groups)[k := Group(old(groups)[k].id, old(groups)[k].values + [v])]
    {
      assert s in data && (s.value != null ==> s.value in data);
      hide Ring, Filled;
      PushFilled(s, v, sensors, groups, data, k);
      assert Ring(sensorsHead, nodes);
      ghost var values: object := s.value;
      groups := groups[k := Group(groups[k].id, groups[k].values + [v])];
      data, Repr := data + {values}, Repr + {values};
    }

    /** One turn of the loop in `values_init`, for an entry with an id. */
    method Add(v: Value, ghost vs: seq<Value>)
      requires Valid() && groups == GroupBy(vs) && v.id != null
      modifies Repr
      ensures Valid() && fresh(Repr - old(Repr)) && groups == GroupBy(vs + [v])
    {
      GroupByAppend(vs, v);
      var s, k := SensorGet(v.id);
      ghost var ids := FirstIds(vs);
      assert forall j :: 0 <= j < |ids| ==> ids[j] == GroupBy(vs)[j].id;
      if k < |ids| {
        assert Has(v, ids[k]);
      } else {
        assert v.id.text !in ids;
      }
      PushTo(s, v, k);
    }

    /** `values_init`: the ring holds the stable group-by of the first `nrValue` entries. */
    constructor Init(nrValue: nat, v: array<Value>)
      requires nrValue <= v.Length
      ensures Valid() && fresh(Repr)
      ensures groups == GroupBy(v[..nrValue])
    {
      sensorsHead := new ListHead<ValuesSensor?>(null);
      nodes, sensors, groups, data := [], [], [], {};
      new;
      InitListHead(sensorsHead);
      Repr := {this, sensorsHead};
      for i := 0 to nrValue
        invariant Valid() && fresh(Repr) && groups == GroupBy(v[..i])
      {
        assert v[..i] + [v[i]] == v[..i + 1];
        GroupByAppend(v[..i], v[i]);
        if v[i].id == null {
          continue;
        }
        Add(v[i], v[..i]);
      }
    }

    /** What a traversal finds at its `j`-th stop. */
    lemma {:induction false} Stop(j: nat)
      requires Valid() && j <= |groups|
      ensures var c := Cycle(sensorsHead, nodes);
              && |nodes| == |groups| && |c| == |nodes| + 2 && c[j].next == c[j + 1]
              && (c[j + 1] == sensorsHead <==> j == |groups|)
      ensures j < |groups| ==>
                var s := Cycle(sensorsHead, nodes)[j + 1].entry;
                s != null && Holds(s, groups[j]) && s in Repr && (s.value != null ==> s.value in Repr)
    {
      RingLinks(sensorsHead, nodes, j);
      if j < |groups| {
        assert Cycle(sensorsHead, nodes)[j + 1] == nodes[j] && sensors[j] in sensors;
        assert Holds(sensors[j], groups[j]);
      }
    }
  }
}

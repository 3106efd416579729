/** What grouping readings by sensor means, independently of how it is computed. */
module Grouping {
  import opened Text
  import opened Rings

  /** `struct thingplus_value`; a NULL id marks an entry to skip. */
  datatype Value = Value(id: CString?, value: CText, time: uint64)

  datatype Group = Group(id: string, values: seq<Value>)

  predicate Has(v: Value, id: string) {
    v.id != null && v.id.text == id
  }

  /** The distinct id texts, in the order they first occur. */
  function FirstIds(vs: seq<Value>): seq<string> {
    if vs == [] then []
    else
      var ids, v := FirstIds(vs[..|vs| - 1]), vs[|vs| - 1];
      if v.id == null || v.id.text in ids then ids else ids + [v.id.text]
  }

  /** The entries with a given id text, in input order. */
  function Filter(vs: seq<Value>, id: string): seq<Value> {
    if vs == [] then []
    else
      var rest, v := Filter(vs[..|vs| - 1], id), vs[|vs| - 1];
      if Has(v, id) then rest + [v] else rest
  }

  /** The entries with a non-NULL id. */
  function NonNull(vs: seq<Value>): seq<Value> {
    if vs == [] then []
    else
      var rest, v := NonNull(vs[..|vs| - 1]), vs[|vs| - 1];
      if v.id != null then rest + [v] else rest
  }

  /** The stable group-by. */
  function GroupBy(vs: seq<Value>): (gs: seq<Group>)
    ensures |gs| == |FirstIds(vs)|
  {
    var ids := FirstIds(vs);
    seq(|ids|, i requires 0 <= i < |ids| => Group(ids[i], Filter(vs, ids[i])))
  }

  /** Some occurrence of `a` has no occurrence of `b` at or before it. */
  ghost predicate OccursBefore(vs: seq<Value>, a: string, b: string) {
    exists p :: 0 <= p < |vs| && Has(vs[p], a) && forall q :: 0 <= q <= p ==> !Has(vs[q], b)
  }

  lemma {:induction false} OccursLater(vs: seq<Value>, v: Value, a: string, b: string)
    requires OccursBefore(vs, a, b)
    ensures OccursBefore(vs + [v], a, b)
  {
    var p :| 0 <= p < |vs| && Has(vs[p], a) && forall q :: 0 <= q <= p ==> !Has(vs[q], b);
    assert Has((vs + [v])[p], a);
  }

  lemma {:induction false} OccursFirst(vs: seq<Value>, v: Value, a: string)
    requires v.id != null && v.id.text !in FirstIds(vs) && a in FirstIds(vs)
    requires forall i :: 0 <= i < |vs| && vs[i].id != null ==> vs[i].id.text in FirstIds(vs)
    requires exists i :: 0 <= i < |vs| && Has(vs[i], a)
    ensures OccursBefore(vs + [v], a, v.id.text)
  {
    var p :| 0 <= p < |vs| && Has(vs[p], a);
    assert Has((vs + [v])[p], a);
  }

  /** Each id once, exactly the ids that occur, in order of first occurrence. */
  lemma {:induction false} FirstIdsLaws(vs: seq<Value>)
    ensures Distinct(FirstIds(vs))
    ensures forall i :: 0 <= i < |vs| && vs[i].id != null ==> vs[i].id.text in FirstIds(vs)
    ensures forall id :: id in FirstIds(vs) ==> exists i :: 0 <= i < |vs| && Has(vs[i], id)
    ensures forall j, k :: 0 <= j < k < |FirstIds(vs)| ==> OccursBefore(vs, FirstIds(vs)[j], FirstIds(vs)[k])
  {
    if vs == [] {
    } else {
      var init, v := vs[..|vs| - 1], vs[|vs| - 1];
      FirstIdsLaws(init);
      var earlier, ids := FirstIds(init), FirstIds(vs);
      assert ids == if v.id == null || v.id.text in earlier then earlier else earlier + [v.id.text];
      assert init + [v] == vs;
      hide FirstIds, OccursBefore;
      forall id | id in ids ensures exists i :: 0 <= i < |vs| && Has(vs[i], id) {
        if id in earlier {
          var i :| 0 <= i < |init| && Has(init[i], id);
          assert Has(vs[i], id);
        } else {
          assert Has(vs[|vs| - 1], id);
        }
      }
      forall j, k | 0 <= j < k < |ids| ensures OccursBefore(vs, ids[j], ids[k]) {
        if k < |earlier| {
          OccursLater(init, v, ids[j], ids[k]);
        } else {
          assert ids[j] == earlier[j];
          OccursFirst(init, v, ids[j]);
        }
      }
    }
  }

  lemma {:induction false} FilterAbsent(vs: seq<Value>, id: string)
    requires id !in FirstIds(vs)
    ensures Filter(vs, id) == []
  {
    if vs == [] {
    } else {
      FilterAbsent(vs[..|vs| - 1], id);
    }
  }

  lemma {:induction false} FilterPresent(vs: seq<Value>, id: string)
    requires id in FirstIds(vs)
    ensures Filter(vs, id) != []
  {
    var init := vs[..|vs| - 1];
    if id !in FirstIds(init) {
      assert Has(vs[|vs| - 1], id);
    } else {
      FilterPresent(init, id);
    }
  }

  lemma {:induction false} NonNullAppend(vs: seq<Value>, v: Value)
    ensures NonNull(vs + [v]) == NonNull(vs) + if v.id != null then [v] else []
  {
    assert (vs + [v])[..|vs + [v]| - 1] == vs;
  }

  /** A group holds no entry without an id. */
  lemma {:induction false} NonNullFilter(vs: seq<Value>, id: string)
    ensures NonNull(Filter(vs, id)) == Filter(vs, id)
  {
    if vs == [] {
    } else {
      NonNullFilter(vs[..|vs| - 1], id);
      NonNullAppend(Filter(vs[..|vs| - 1], id), vs[|vs| - 1]);
    }
  }

  lemma {:induction false} GroupValues(vs: seq<Value>, k: nat)
    requires k < |GroupBy(vs)|
    ensures var values := GroupBy(vs)[k].values; values != [] && NonNull(values) == values
  {
    FilterPresent(vs, FirstIds(vs)[k]);
    NonNullFilter(vs, FirstIds(vs)[k]);
  }

  /** What one more entry does to the groups. */
  lemma {:induction false} GroupByAppend(vs: seq<Value>, v: Value)
    ensures v.id == null ==> GroupBy(vs + [v]) == GroupBy(vs)
    ensures v.id != null && v.id.text !in FirstIds(vs) ==>
              GroupBy(vs + [v]) == GroupBy(vs) + [Group(v.id.text, [v])]
    ensures forall k :: 0 <= k < |FirstIds(vs)| && Has(v, FirstIds(vs)[k]) ==>
              GroupBy(vs + [v]) == GroupBy(vs)[k := Group(v.id.text, GroupBy(vs)[k].values + [v])]
  {
    var ws := vs + [v];
    assert ws[..|ws| - 1] == vs;
    FirstIdsLaws(vs);
    if v.id != null && v.id.text !in FirstIds(vs) {
      FilterAbsent(vs, v.id.text);
      var ids := FirstIds(vs);
      forall i | 0 <= i < |ids| ensures Filter(ws, ids[i]) == Filter(vs, ids[i]) {
        assert ids[i] in ids;
      }
      assert FirstIds(ws) == ids + [v.id.text] && Filter(ws, v.id.text) == [] + [v];
      var gs := GroupBy(vs) + [Group(v.id.text, [v])];
      forall i | 0 <= i < |gs| ensures GroupBy(ws)[i] == gs[i] {
      }
    }
  }

  // ---------------------------------------------------------------- counting

  function Total(gs: seq<Group>): nat {
    if gs == [] then 0 else Total(gs[..|gs| - 1]) + |gs[|gs| - 1].values|
  }

  lemma {:induction false} TotalUpdate(gs: seq<Group>, k: nat, g: Group)
    requires k < |gs| && |g.values| == |gs[k].values| + 1
    ensures Total(gs[k := g]) == Total(gs) + 1
  {
    var hs := gs[k := g];
    if k < |gs| - 1 {
      assert hs[..|hs| - 1] == gs[..|gs| - 1][k := g];
      TotalUpdate(gs[..|gs| - 1], k, g);
    } else {
      assert hs[..|hs| - 1] == gs[..|gs| - 1];
    }
  }

  /** Grouping neither loses nor repeats an entry. */
  lemma {:induction false} GroupByTotal(vs: seq<Value>)
    ensures Total(GroupBy(vs)) == |NonNull(vs)|
  {
    if vs == [] {
    } else {
      var init, v := vs[..|vs| - 1], vs[|vs| - 1];
      GroupByTotal(init);
      GroupByAppend(init, v);
      assert init + [v] == vs;
      if v.id != null {
        if v.id.text in FirstIds(init) {
          var k :| 0 <= k < |FirstIds(init)| && FirstIds(init)[k] == v.id.text;
          assert Has(v, FirstIds(init)[k]);
          TotalUpdate(GroupBy(init), k, Group(v.id.text, GroupBy(init)[k].values + [v]));
        } else {
          var gs := GroupBy(vs);
          assert gs[..|gs| - 1] == GroupBy(init);
        }
      }
    }
  }
}

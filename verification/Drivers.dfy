/** The memo table of `sensor_driver.c`: the id template of each sensor driver, fetched once. */
module Drivers {
  import opened Text

  datatype Driver = Driver(name: string, template: string)

  /** A lookup: the name asked for, and what the server would answer if it were asked now. */
  datatype Ask = Ask(name: string, answer: Option<string>)

  /** The first row under a case-folded name. */
  function Find(table: seq<Driver>, key: string): Option<string> {
    if table == [] then None
    else if Fold(table[0].name) == key then Some(table[0].template)
    else Find(table[1..], key)
  }

  predicate NoFoldDuplicates(table: seq<Driver>) {
    forall i, j :: 0 <= i < j < |table| ==> !EqualFold(table[i].name, table[j].name)
  }

  /** What a lookup leaves in the table. */
  function Remember(table: seq<Driver>, ask: Ask): seq<Driver> {
    if Find(table, Fold(ask.name)).Some? || ask.answer.None? then table
    else table + [Driver(ask.name, ask.answer.value)]
  }

  /** What a lookup returns. */
  function Template(table: seq<Driver>, ask: Ask): Option<string> {
    var found := Find(table, Fold(ask.name));
    if found.Some? then found else ask.answer
  }

  lemma {:induction false} FindAppend(table: seq<Driver>, d: Driver, key: string)
    ensures Find(table + [d], key) ==
            if Find(table, key).Some? then Find(table, key) else if Fold(d.name) == key then Some(d.template) else None
  {
    if table == [] {
      assert (table + [d])[1..] == [];
    } else {
      assert (table + [d])[1..] == table[1..] + [d];
      FindAppend(table[1..], d, key);
    }
  }

  lemma {:induction false} FindAt(table: seq<Driver>, key: string, i: nat)
    requires i <= |table| && forall k :: 0 <= k < i ==> Fold(table[k].name) != key
    ensures i < |table| && Fold(table[i].name) == key ==> Find(table, key) == Some(table[i].template)
    ensures i == |table| ==> Find(table, key) == None
  {
    if table == [] || i == 0 {
    } else {
      FindAt(table[1..], key, i - 1);
    }
  }

  /** The static `list` and `nr_list`. */
  class SensorDrivers {
    var list: seq<Driver>
    /** The names fetched from the server, and the lookups made, since the last cleanup. */
    ghost var fetched: seq<string>
    ghost var asks: seq<Ask>

    /** The object is where its lookups have led it. */
    ghost predicate Recorded()
      reads this
    {
      list == Table(asks) && fetched == Fetches(asks)
    }

    constructor ()
      ensures list == [] && fetched == [] && Recorded()
    {
      list, fetched, asks := [], [], [];
    }

    /** `_sensor_driver_search`. */
    method Search(name: string) returns (i: nat)
      ensures i <= |list| && (i < |list| ==> EqualFold(list[i].name, name))
      ensures forall k :: 0 <= k < i ==> !EqualFold(list[k].name, name)
    {
      i := 0;
      while i < |list|
        invariant i <= |list| && forall k :: 0 <= k < i ==> !EqualFold(list[k].name, name)
      {
        if EqualFold(list[i].name, name) {
          return;
        }
        i := i + 1;
      }
    }

    /** `sensor_driver_id_template_get`; `answer` is None when the read fails or has no template. */
    method IdTemplateGet(name: string, answer: Option<string>) returns (template: Option<string>)
      modifies this
      ensures template == Template(old(list), Ask(name, answer))
      ensures list == Remember(old(list), Ask(name, answer))
      ensures fetched == old(fetched) + if Find(old(list), Fold(name)).Some? then [] else [name]
      ensures asks == old(asks) + [Ask(name, answer)] && (old(Recorded()) ==> Recorded())
    {
      AsksAppend(asks, Ask(name, answer));
      asks := asks + [Ask(name, answer)];
      var i := Search(name);
      FindAt(list, Fold(name), i);
      if i < |list| {
        return Some(list[i].template);
      }
      fetched := fetched + [name];
      if answer.None? {
        return None;
      }
      list := list + [Driver(name, answer.value)];
      return answer;
    }

    /** `sensor_driver_cleanup`. */
    method Cleanup()
      modifies this
      ensures list == [] && fetched == [] && Recorded()
    {
      list, fetched, asks := [], [], [];
    }
  }

  // ---------------------------------------------------------------- runs between cleanups

  function Table(asks: seq<Ask>): seq<Driver> {
    if asks == [] then [] else Remember(Table(asks[..|asks| - 1]), asks[|asks| - 1])
  }

  /** The names a run of lookups fetches: those it does not find in the table. */
  function Fetches(asks: seq<Ask>): seq<string> {
    if asks == [] then []
    else
      var init, name := asks[..|asks| - 1], asks[|asks| - 1].name;
      Fetches(init) + if Find(Table(init), Fold(name)).Some? then [] else [name]
  }

  lemma {:induction false} AsksAppend(asks: seq<Ask>, ask: Ask)
    ensures Table(asks + [ask]) == Remember(Table(asks), ask)
    ensures Fetches(asks + [ask]) ==
            Fetches(asks) + if Find(Table(asks), Fold(ask.name)).Some? then [] else [ask.name]
  {
    assert (asks + [ask])[..|asks|] == asks;
  }

  /** The answer to the first successful fetch under a case-folded name. */
  function FirstSuccess(asks: seq<Ask>, key: string): Option<string> {
    if asks == [] then None
    else
      var earlier, last := FirstSuccess(asks[..|asks| - 1], key), asks[|asks| - 1];
      if earlier.Some? then earlier else if Fold(last.name) == key then last.answer else None
  }

  /** Lookup `n` is the first under a key that the server answered. */
  ghost predicate FirstAnswered(asks: seq<Ask>, key: string, n: nat) {
    && n < |asks| && Fold(asks[n].name) == key && asks[n].answer.Some?
    && forall m :: 0 <= m < n && Fold(asks[m].name) == key ==> asks[m].answer.None?
  }

  /** What the first success is, and when there is none, whatever the answer says. */
  lemma {:induction false} FirstSuccessExactly(asks: seq<Ask>, key: string)
    ensures forall n: nat :: FirstAnswered(asks, key, n) ==> FirstSuccess(asks, key) == asks[n].answer
    ensures FirstSuccess(asks, key) == None <==>
            forall n :: 0 <= n < |asks| && Fold(asks[n].name) == key ==> asks[n].answer.None?
  {
    if asks == [] {
    } else {
      var init := asks[..|asks| - 1];
      FirstSuccessExactly(init, key);
      hide Fold;
      forall n: nat | FirstAnswered(asks, key, n) ensures FirstSuccess(asks, key) == asks[n].answer {
        if n < |init| {
          assert FirstAnswered(init, key, n);
        }
      }
    }
  }

  /** The table is a map keyed by case-folded name: each key holds its first success. */
  lemma {:induction false} TableIsMap(asks: seq<Ask>, key: string)
    ensures Find(Table(asks), key) == FirstSuccess(asks, key)
  {
    if asks == [] {
    } else {
      var init, last := asks[..|asks| - 1], asks[|asks| - 1];
      TableIsMap(init, key);
      if last.answer.Some? {
        FindAppend(Table(init), Driver(last.name, last.answer.value), key);
      }
    }
  }

  /** Every lookup returns the first success for its name, its own fetch included; it fetches
      exactly when there was none before, and a failed fetch changes nothing. */
  lemma {:induction false} LookupLaw(asks: seq<Ask>, n: nat)
    requires n < |asks|
    ensures var before, ask := asks[..n], asks[n];
            var known := FirstSuccess(before, Fold(ask.name)).Some?;
            && Template(Table(before), ask) == FirstSuccess(asks[..n + 1], Fold(ask.name))
            && Fetches(asks[..n + 1]) == Fetches(before) + (if known then [] else [ask.name])
            && (known || ask.answer.None? ==> Table(asks[..n + 1]) == Table(before))
  {
    TableIsMap(asks[..n], Fold(asks[n].name));
    assert asks[..n + 1] == asks[..n] + [asks[n]];
    AsksAppend(asks[..n], asks[n]);
    assert asks[..n + 1][..n] == asks[..n];
  }

  /** Once a fetch for a name has succeeded its answer never changes. */
  lemma {:induction false} SuccessStays(asks: seq<Ask>, n: nat, key: string)
    requires n <= |asks| && FirstSuccess(asks[..n], key).Some?
    ensures FirstSuccess(asks, key) == FirstSuccess(asks[..n], key)
  {
    if n == |asks| {
      assert asks[..n] == asks;
    } else {
      assert asks[..|asks| - 1][..n] == asks[..n];
      SuccessStays(asks[..|asks| - 1], n, key);
    }
  }

  /** Once a fetch for a name has succeeded, no name equal to it up to case is fetched again. */
  lemma {:induction false} NeverFetchedAgain(asks: seq<Ask>, n: nat, key: string)
    requires n <= |asks| && FirstSuccess(asks[..n], key).Some?
    ensures Fetches(asks[..n]) <= Fetches(asks)
    ensures forall i :: |Fetches(asks[..n])| <= i < |Fetches(asks)| ==> Fold(Fetches(asks)[i]) != key
  {
    if n == |asks| {
      assert asks[..n] == asks;
    } else {
      var init := asks[..|asks| - 1];
      assert init[..n] == asks[..n];
      NeverFetchedAgain(init, n, key);
      SuccessStays(init, n, key);
      TableIsMap(init, key);
    }
  }

  lemma {:induction false} FindNone(table: seq<Driver>, key: string, i: nat)
    requires Find(table, key) == None && i < |table|
    ensures Fold(table[i].name) != key
  {
    if i == 0 {
    } else {
      FindNone(table[1..], key, i - 1);
    }
  }

  /** No two rows have names equal under `strcasecmp`. */
  lemma {:induction false} TableHasNoDuplicates(asks: seq<Ask>)
    ensures NoFoldDuplicates(Table(asks))
  {
    if asks == [] {
    } else {
      var init, last := asks[..|asks| - 1], asks[|asks| - 1];
      TableHasNoDuplicates(init);
      var before := Table(init);
      if Find(before, Fold(last.name)).None? && last.answer.Some? {
        forall i | 0 <= i < |before| ensures !EqualFold(before[i].name, last.name) {
          FindNone(before, Fold(last.name), i);
        }
      }
    }
  }
}

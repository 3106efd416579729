/** The printing loops of `mqtt.c`: entries and groups written fragment by fragment into the
    growing payload buffer. */
module Publishing {
  import opened Text
  import opened Rings
  import opened Grouping
  import opened Payloads
  import opened Values
  import opened Telemetry

  /** `gettimeofday`: whatever the clock shows, call after call. */
  class ClockSource {
    const reading: Clock
    var calls: nat

    constructor (reading: Clock)
      ensures this.reading == reading && calls == 0
    {
      this.reading := reading;
      calls := 0;
    }

    method NowMs() returns (now: uint64)
      modifies this
      ensures now == reading(old(calls)) && calls == old(calls) + 1
    {
      now := reading(calls);
      calls := calls + 1;
    }
  }

  /** Every fragment the single-sensor loop prints fits the scratch buffer. */
  ghost predicate SeriesFits(rs: seq<Reading>) {
    forall i :: 0 <= i < |rs| ==> |ReadingFragment(i == 0, rs[i])| < BLOCK
  }

  ghost predicate GroupsFit(ss: seq<Series>) {
    forall i :: 0 <= i < |ss| ==> |HeaderFragment(i == 0, ss[i].id)| < BLOCK && SeriesFits(ss[i].readings)
  }

  lemma {:induction false} StampAt(vs: seq<Value>, clock: Clock, k: nat, i: nat)
    requires i < |vs|
    ensures Stamp(vs, clock, k)[i] == StampOne(vs[i], clock, k + Unstamped(vs[..i]))
  {
    if i == |vs| - 1 {
    } else {
      StampAt(vs[..|vs| - 1], clock, k, i);
      assert vs[..|vs| - 1][..i] == vs[..i];
    }
  }

  lemma {:induction false} NonNullPrefix(vs: seq<Value>, n: nat)
    requires n <= |vs|
    ensures NonNull(vs[..n]) <= NonNull(vs)
  {
    if n < |vs| {
      NonNullPrefix(vs[..|vs| - 1], n);
      assert vs[..|vs| - 1][..n] == vs[..n];
    } else {
      assert vs[..n] == vs;
    }
  }

  lemma {:induction false} FragmentHasNoNul(first: bool, r: Reading)
    requires '\0' !in r.value
    ensures '\0' !in ReadingFragment(first, r)
  {
    DecimalChars(Signed64(r.time));
  }

  lemma {:induction false} HeaderHasNoNul(first: bool, id: CText)
    ensures '\0' !in HeaderFragment(first, id)
  {
  }

  /** The next entry with an id, and where it stands among all of them. */
  lemma {:induction false} NextNonNull(vs: seq<Value>, i: nat, done: seq<Value>)
    requires i < |vs| && done == NonNull(vs[..i])
    ensures NonNull(vs[..i + 1]) == if vs[i].id == null then done else done + [vs[i]]
    ensures vs[i].id != null ==> done + [vs[i]] <= NonNull(vs)
  {
    assert vs[..i] + [vs[i]] == vs[..i + 1];
    NonNullAppend(vs[..i], vs[i]);
    NonNullPrefix(vs, i + 1);
  }

  lemma {:induction false} NextFits(all: seq<Value>, done: seq<Value>, v: Value, clock: Clock, k: nat, first: bool,
                                    calls: nat)
    requires done + [v] <= all && SeriesFits(Stamp(all, clock, k))
    requires first == (done == []) && calls == k + Unstamped(done)
    ensures |ReadingFragment(first, StampOne(v, clock, calls))| < BLOCK
  {
    hide Decimal;
    var n, rs := |done|, Stamp(all, clock, k);
    assert all[n] == (done + [v])[n] && all[..n] == done;
    StampAt(all, clock, k, n);
    assert |ReadingFragment(n == 0, rs[n])| < BLOCK;
  }

  /** What one printed entry adds. */
  lemma {:induction false} NextText(text: string, done: seq<Value>, v: Value, clock: Clock, k: nat, first: bool,
                                    calls: nat)
    requires first == (done == []) && calls == k + Unstamped(done)
    ensures text + SeriesText(Stamp(done + [v], clock, k)) ==
            (text + SeriesText(Stamp(done, clock, k))) + ReadingFragment(first, StampOne(v, clock, calls))
    ensures k + Unstamped(done + [v]) == calls + if v.time == 0 then 1 else 0
  {
    hide Decimal;
    var r := StampOne(v, clock, calls);
    StampAppend(done, v, clock, k);
    SeriesTextAppend(Stamp(done, clock, k), r);
    ConcatAssoc(text, SeriesText(Stamp(done, clock, k)), ReadingFragment(first, r));
  }

  lemma {:induction false} NothingPrinted(text: string, vs: seq<Value>, clock: Clock, k: nat)
    ensures NonNull(vs[..0]) == [] && Unstamped([]) == 0
    ensures text == text + SeriesText(Stamp([], clock, k))
  {
  }

  /** One turn of the printing loop. */
  method PrintValue(payload: Payload, payloadSize: nat, first: bool, v: Value, clock: ClockSource) returns (size: nat)
    requires payload.Valid() && clock !in payload.Repr && payloadSize == payload.Capacity()
    requires |ReadingFragment(first, StampOne(v, clock.reading, clock.calls))| < BLOCK
    modifies payload.Repr, clock
    ensures payload.Valid() && size == payload.Capacity() && payload.bytes != null
    ensures payload.text == old(payload.text) + ReadingFragment(first, StampOne(v, clock.reading, old(clock.calls)))
    ensures clock.calls == old(clock.calls) + if v.time == 0 then 1 else 0
    ensures fresh(payload.Repr - old(payload.Repr))
  {
    FragmentHasNoNul(first, StampOne(v, clock.reading, clock.calls));
    var timeMs := v.time;
    if timeMs == 0 {
      timeMs := clock.NowMs();
    }
    size := payload.Packetize(payloadSize, ReadingFragment(first, Reading(timeMs, v.value)));
  }

  /** `_sensor_value_packetize`. */
  method SensorValuePacketize(payload: Payload, payloadSize: nat, nrValue: nat, v: array<Value>, clock: ClockSource)
    returns (size: nat)
    requires payload.Valid() && clock !in payload.Repr && payloadSize == payload.Capacity()
    requires nrValue <= v.Length && v !in payload.Repr
    requires SeriesFits(Stamp(NonNull(v[..nrValue]), clock.reading, clock.calls))
    modifies payload.Repr, clock
    ensures payload.Valid() && size == payload.Capacity()
    ensures payload.text ==
            old(payload.text) + SeriesText(Stamp(NonNull(v[..nrValue]), clock.reading, old(clock.calls)))
    ensures clock.calls == old(clock.calls) + Unstamped(NonNull(v[..nrValue]))
    ensures fresh(payload.Repr - old(payload.Repr))
    ensures payload.bytes == null <==> old(payload.bytes) == null && NonNull(v[..nrValue]) == []
  {
    hide *;
    size := payloadSize;
    var first := true;
    ghost var text, vs, k, clk := payload.text, v[..nrValue], clock.calls, clock.reading;
    ghost var done: seq<Value> := [];
    NothingPrinted(text, vs, clk, k);
    for i := 0 to nrValue
      invariant payload.Valid() && clock !in payload.Repr && size == payload.Capacity() && done == NonNull(vs[..i])
      invariant fresh(payload.Repr - old(payload.Repr))
      invariant clock.calls == k + Unstamped(done)
      invariant payload.text == text + SeriesText(Stamp(done, clk, k))
      invariant first <==> done == []
      invariant payload.bytes == null <==> old(payload.bytes) == null && first
    {
      NextNonNull(vs, i, done);
      assert v[i] == vs[i];
      if v[i].id == null {
        continue;
      }
      NextFits(NonNull(vs), done, v[i], clk, k, first, clock.calls);
      NextText(text, done, v[i], clk, k, first, clock.calls);
      size := PrintValue(payload, size, first, v[i], clock);
      first := false;
      done := done + [v[i]];
    }
    assert vs[..nrValue] == vs;
  }

  /** One group printed: header, readings, closing bracket. */
  lemma {:induction false} NextGroup(text: string, gs: seq<Group>, k: nat, clock: Clock, j: nat, calls: nat)
    requires j < |gs| && calls == k + UnstampedGroups(gs[..j])
    requires GroupsFit(StampGroups(gs, clock, k))
    ensures var ss, rs := StampGroups(gs[..j], clock, k), Stamp(gs[j].values, clock, calls);
            && |HeaderFragment(j == 0, gs[j].id)| < BLOCK && SeriesFits(rs)
            && text + OpenText(StampGroups(gs[..j + 1], clock, k)) ==
               text + OpenText(ss) + HeaderFragment(j == 0, gs[j].id) + SeriesText(rs) + "]"
            && k + UnstampedGroups(gs[..j + 1]) == calls + Unstamped(gs[j].values)
  {
    hide Decimal, Join, HeaderFragment, SeriesText, OpenText, Stamp, Unstamped;
    var ss, s := StampGroups(gs[..j], clock, k), Series(gs[j].id, Stamp(gs[j].values, clock, calls));
    var all := StampGroups(gs, clock, k);
    StampGroupsAt(gs, clock, k, j);
    assert gs[..j + 1][..j] == gs[..j] && StampGroups(gs[..j + 1], clock, k) == ss + [s];
    assert all[j] == s && |HeaderFragment(j == 0, all[j].id)| < BLOCK && SeriesFits(all[j].readings);
    OpenTextAppend(ss, s);
    Concat5(text, OpenText(ss), HeaderFragment(j == 0, s.id), SeriesText(s.readings), "]");
  }

  lemma {:induction false} Concat5(a: string, b: string, c: string, d: string, e: string)
    ensures a + (b + c + d + e) == a + b + c + d + e
  {
  }

  /** The readings of one sensor record. */
  method PrintReadings(payload: Payload, payloadSize: nat, s: ValuesSensor, clock: ClockSource, ghost g: Group)
    returns (size: nat)
    requires payload.Valid() && clock !in payload.Repr && payloadSize == payload.Capacity()
    requires s !in payload.Repr && (s.value != null ==> s.value !in payload.Repr)
    requires Holds(s, g) && g.values != [] && NonNull(g.values) == g.values
    requires SeriesFits(Stamp(g.values, clock.reading, clock.calls))
    modifies payload.Repr, clock
    ensures payload.Valid() && size == payload.Capacity() && fresh(payload.Repr - old(payload.Repr))
    ensures payload.text == old(payload.text) + SeriesText(Stamp(g.values, clock.reading, old(clock.calls)))
    ensures clock.calls == old(clock.calls) + Unstamped(g.values)
  {
    assert s.value != null && s.value[..s.nrValue] == g.values && s.nrValue <= s.value.Length;
    hide *;
    size := SensorValuePacketize(payload, payloadSize, s.nrValue, s.value, clock);
    assert s.value[..s.nrValue] == g.values;
  }

  /** One turn of the loop over the sensors. */
  method PrintGroup(payload: Payload, payloadSize: nat, first: bool, s: ValuesSensor, clock: ClockSource,
                    ghost g: Group)
    returns (size: nat)
    requires payload.Valid() && clock !in payload.Repr && payloadSize == payload.Capacity()
    requires s !in payload.Repr && (s.value != null ==> s.value !in payload.Repr)
    requires Holds(s, g) && g.values != [] && NonNull(g.values) == g.values
    requires |HeaderFragment(first, g.id)| < BLOCK && SeriesFits(Stamp(g.values, clock.reading, clock.calls))
    modifies payload.Repr, clock
    ensures payload.Valid() && size == payload.Capacity() && fresh(payload.Repr - old(payload.Repr))
    ensures payload.text == old(payload.text) + HeaderFragment(first, g.id) +
                            SeriesText(Stamp(g.values, clock.reading, old(clock.calls))) + "]"
    ensures clock.calls == old(clock.calls) + Unstamped(g.values)
  {
    assert s.id.text == g.id;
    HeaderHasNoNul(first, g.id);
    hide *;
    size := payload.Packetize(payloadSize, HeaderFragment(first, s.id.text));
    size := PrintReadings(payload, size, s, clock, g);
    size := payload.Packetize(size, "]");
  }

  /** The state of the loop over the sensors, `j` of them printed. */
  ghost predicate Printing(payload: Payload, size: nat, s: SensorValues, pos: ListHead?<ValuesSensor?>,
                           clock: ClockSource, text: string, vs: seq<Value>, k: nat, j: nat)
    reads payload, payload.Repr, s, s.Repr, clock
  {
    var gs := GroupBy(vs);
    && s.Valid() && s in s.Repr && s.groups == gs && j <= |gs| == |s.nodes|
    && pos == Cycle(s.sensorsHead, s.nodes)[j + 1]
    && payload.Valid() && size == payload.Capacity()
    && clock !in payload.Repr && clock !in s.Repr && payload.Repr !! s.Repr
    && clock.calls == k + UnstampedGroups(gs[..j])
    && payload.text == text + OpenText(StampGroups(gs[..j], clock.reading, k))
  }

  method PrintNext(payload: Payload, payloadSize: nat, s: SensorValues, pos: Node, clock: ClockSource, first: bool,
                   ghost text: string, ghost vs: seq<Value>, ghost k: nat, ghost j: nat)
    returns (size: nat, next: ListHead?<ValuesSensor?>)
    requires Printing(payload, payloadSize, s, pos, clock, text, vs, k, j) && pos != s.sensorsHead
    requires first == (j == 0) && GroupsFit(StampGroups(GroupBy(vs), clock.reading, k))
    modifies payload.Repr, clock
    ensures fresh(payload.Repr - old(payload.Repr))
    ensures Printing(payload, size, s, next, clock, text, vs, k, j + 1)
  {
    hide OpenText, StampGroups, UnstampedGroups, Stamp, Unstamped, GroupBy, GroupsFit, SeriesFits, NonNull,
         HeaderFragment, SeriesText, Holds, Payload.Valid, Payload.Capacity, SensorValues.Valid;
    ghost var gs, repr := s.groups, s.Repr;
    s.Stop(j);
    NextGroup(text, gs, k, clock.reading, j, clock.calls);
    GroupValues(vs, j);
    size := PrintGroup(payload, payloadSize, first, pos.entry, clock, gs[j]);
    assert s.Valid() && s.groups == gs && s.Repr == repr;
    s.Stop(j + 1);
    next := pos.next;
  }

  /** The loop over the sensors. */
  method PrintAll(payload: Payload, payloadSize: nat, s: SensorValues, clock: ClockSource, ghost vs: seq<Value>)
    returns (size: nat)
    requires payload.Valid() && clock !in payload.Repr && payloadSize == payload.Capacity()
    requires s.Valid() && s.groups == GroupBy(vs) && clock !in s.Repr && payload.Repr !! s.Repr
    requires GroupsFit(StampGroups(GroupBy(vs), clock.reading, clock.calls))
    modifies payload.Repr, clock
    ensures payload.Valid() && size == payload.Capacity() && fresh(payload.Repr - old(payload.Repr))
    ensures clock !in payload.Repr
    ensures payload.text == old(payload.text) + OpenText(StampGroups(GroupBy(vs), clock.reading, old(clock.calls)))
    ensures clock.calls == old(clock.calls) + UnstampedGroups(GroupBy(vs))
  {
    hide *;
    ghost var text, k := payload.text, clock.calls;
    PrintingStarts(payload, payloadSize, s, clock, vs);
    var first, pos := true, s.sensorsHead.next;
    size := payloadSize;
    ghost var j := 0;
    while pos != s.sensorsHead
      invariant Printing(payload, size, s, pos, clock, text, vs, k, j) && first == (j == 0)
      invariant fresh(payload.Repr - old(payload.Repr)) && j <= |s.groups|
      decreases |s.groups| - j
    {
      PrintingGoesOn(payload, size, s, pos, clock, text, vs, k, j);
      size, pos := PrintNext(payload, size, s, pos, clock, first, text, vs, k, j);
      first := false;
      j := j + 1;
    }
    PrintingEnds(payload, size, s, pos, clock, text, vs, k, j);
  }

  /** The groups, up to the closing brace. */
  method PrintGrouped(payload: Payload, payloadSize: nat, nrValue: nat, values: array<Value>, clock: ClockSource,
                      ghost vs: seq<Value>)
    returns (size: nat)
    requires payload.Valid() && clock !in payload.Repr && payloadSize == payload.Capacity()
    requires nrValue <= values.Length && vs == values[..nrValue]
    requires GroupsFit(StampGroups(GroupBy(vs), clock.reading, clock.calls))
    modifies payload.Repr, clock
    ensures payload.Valid() && size == payload.Capacity() && fresh(payload.Repr - old(payload.Repr))
    ensures clock !in payload.Repr
    ensures payload.text == old(payload.text) + OpenText(StampGroups(GroupBy(vs), clock.reading, old(clock.calls)))
    ensures clock.calls == old(clock.calls) + UnstampedGroups(GroupBy(vs))
  {
    hide *;
    var s := new SensorValues.Init(nrValue, values);
    size := PrintAll(payload, payloadSize, s, clock, vs);
  }

  /** `_sensors_value_packetize`. */
  method SensorsValuePacketize(payload: Payload, payloadSize: nat, nrValue: nat, values: array<Value>,
                               clock: ClockSource)
    returns (size: nat)
    requires payload.Valid() && clock !in payload.Repr && payloadSize == payload.Capacity()
    requires nrValue <= values.Length && values !in payload.Repr
    requires GroupsFit(StampGroups(GroupBy(values[..nrValue]), clock.reading, clock.calls))
    modifies payload.Repr, clock
    ensures payload.Valid() && size == payload.Capacity() && payload.bytes != null
    ensures fresh(payload.Repr - old(payload.Repr))
    ensures payload.text ==
            old(payload.text) +
            OpenText(StampGroups(GroupBy(old(values[..nrValue])), clock.reading, old(clock.calls))) + "}"
    ensures clock.calls == old(clock.calls) + UnstampedGroups(GroupBy(old(values[..nrValue])))
  {
    assert |"}"| < BLOCK;
    hide *;
    ghost var vs := values[..nrValue];
    size := PrintGrouped(payload, payloadSize, nrValue, values, clock, vs);
    size := payload.Packetize(size, "}");
  }

  lemma {:induction false} PrintingStarts(payload: Payload, size: nat, s: SensorValues, clock: ClockSource,
                                          vs: seq<Value>)
    requires s.Valid() && s.groups == GroupBy(vs) && payload.Valid() && size == payload.Capacity()
    requires clock !in payload.Repr && clock !in s.Repr && payload.Repr !! s.Repr
    ensures Printing(payload, size, s, s.sensorsHead.next, clock, payload.text, vs, clock.calls, 0)
  {
    s.Stop(0);
    assert GroupBy(vs)[..0] == [];
  }

  lemma {:induction false} PrintingGoesOn(payload: Payload, size: nat, s: SensorValues, pos: ListHead?<ValuesSensor?>,
                                          clock: ClockSource,
                       text: string, vs: seq<Value>, k: nat, j: nat)
    requires Printing(payload, size, s, pos, clock, text, vs, k, j) && pos != s.sensorsHead
    ensures pos != null && j < |s.groups| && s in s.Repr && s !in payload.Repr
    ensures payload.Repr !! s.Repr && clock !in s.Repr
  {
    s.Stop(j);
  }

  lemma {:induction false} PrintingEnds(payload: Payload, size: nat, s: SensorValues, pos: ListHead?<ValuesSensor?>,
                                        clock: ClockSource,
                     text: string, vs: seq<Value>, k: nat, j: nat)
    requires Printing(payload, size, s, pos, clock, text, vs, k, j) && pos == s.sensorsHead
    ensures payload.Valid() && size == payload.Capacity()
    ensures clock.calls == k + UnstampedGroups(GroupBy(vs)) && clock !in payload.Repr
    ensures payload.text == text + OpenText(StampGroups(GroupBy(vs), clock.reading, k))
  {
    s.Stop(j);
    assert GroupBy(vs)[..j] == GroupBy(vs);
  }
}

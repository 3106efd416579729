/** `struct mqtt`: the object behind the API, its callbacks and its publishes. Mosquitto is a
    ghost trace of the calls made to it; whether a publish is accepted is a parameter. */
module Mqtt {
  import opened Text
  import opened Grouping
  import opened Payloads
  import opened Telemetry
  import opened Publishing
  import opened Status
  import opened DeviceManagement
  import opened Sessions

  const TOPIC_LENGTH: nat := 256

  /** The presence topic, the longest one made of the gateway's id alone, fits its buffer. */
  predicate GatewayFits(gw: string) {
    |PresenceMessage(gw, true).topic| < TOPIC_LENGTH
  }

  lemma {:induction false} GatewayFitsLength(gw: string)
    ensures GatewayFits(gw) <==> |gw| <= 237
    ensures GatewayFits(gw) ==> |RequestTopic(gw)| < TOPIC_LENGTH && |ResponseTopic(gw)| < TOPIC_LENGTH
  {
  }

  /** What a publish call comes to: a return code, or `strlen` of a NULL payload. */
  datatype Outcome = Returned(code: int) | NullPayload

  const INVALID_ARGUMENT := -1
  const NOT_CONNECTED := -2

  /** The topic and every printed fragment of a value publish fit their buffers. */
  ghost predicate ValueFits(gw: string, vs: seq<Value>, clock: Clock, k: nat) {
    vs != [] ==>
      && |ValueMessage(gw, vs, clock, k).topic| < TOPIC_LENGTH
      && if SinglePointer(vs) then SeriesFits(Stamp(NonNull(vs), clock, k))
         else GroupsFit(StampGroups(GroupBy(vs), clock, k))
  }

  /** The grouped route is taken only when there is a group; without ids nothing reads the clock. */
  lemma {:induction false} RouteLaws(vs: seq<Value>, clock: Clock, k: nat)
    requires vs != []
    ensures !SinglePointer(vs) ==> SomeId(vs) && StampGroups(GroupBy(vs), clock, k) != []
    ensures !SomeId(vs) ==> ValueReads(vs) == 0
  {
    NonNullEmpty(vs);
    if !SinglePointer(vs) {
      var i :| 1 <= i < |vs| && vs[i].id != null && vs[i].id != vs[0].id;
      assert SomeId(vs);
      FirstIdsLaws(vs);
      assert vs[i].id.text in FirstIds(vs);
    }
  }

  /** The topics and fragments of a status publish fit their buffers. */
  ghost predicate StatusFits(gw: string, ts: seq<Thing>, now: uint64) {
    var fs := OrderedFacts(gw, ts, now);
    if GatewayIndex(ts, gw) < |ts| then
      |GatewayStatusTopic(gw)| < TOPIC_LENGTH && forall i :: 1 <= i < |fs| ==> |TripleFragment(fs[i])| < BLOCK
    else
      forall i :: 0 <= i < |fs| ==> |ThingStatusTopic(gw, fs[i].id)| < TOPIC_LENGTH
  }

  // What a caller can check beforehand, whatever the clock will show.

  lemma {:induction false} SeriesFitsShort(vs: seq<Value>, clock: Clock, k: nat)
    requires forall i :: 0 <= i < |vs| ==> |vs[i].value| <= 489
    ensures SeriesFits(Stamp(vs, clock, k))
  {
    var rs := Stamp(vs, clock, k);
    forall i | 0 <= i < |rs| ensures |ReadingFragment(i == 0, rs[i])| < BLOCK {
      StampAt(vs, clock, k, i);
      DecimalLength(Signed64(rs[i].time));
      hide Decimal, Stamp;
    }
  }

  lemma {:induction false} NonNullMembers(vs: seq<Value>)
    ensures forall i :: 0 <= i < |NonNull(vs)| ==> NonNull(vs)[i] in vs && NonNull(vs)[i].id != null
  {
    if vs == [] {
    } else {
      NonNullMembers(vs[..|vs| - 1]);
    }
  }

  lemma {:induction false} GroupFitsShort(vs: seq<Value>, id: string, clock: Clock, k: nat)
    requires forall v :: v in vs && v.id != null ==> |v.id.text| <= 246 && |v.value| <= 489
    requires id in FirstIds(vs)
    ensures |id| <= 246 && SeriesFits(Stamp(Filter(vs, id), clock, k))
  {
    hide *;
    var f := Filter(vs, id);
    FilterPresent(vs, id);
    FilterMembers(vs, id);
    assert forall i :: 0 <= i < |f| ==> f[i].id != null && f[i].id.text == id by {
      FilteredIds(vs, id);
    }
    assert f[0] in vs;
    SeriesFitsShort(f, clock, k);
  }

  lemma {:induction false} FilteredIds(vs: seq<Value>, id: string)
    ensures forall i :: 0 <= i < |Filter(vs, id)| ==>
              Filter(vs, id)[i].id != null && Filter(vs, id)[i].id.text == id
  {
    FilterMembers(vs, id);
    var f := Filter(vs, id);
    assert forall i :: 0 <= i < |f| ==> Has(f[i], id);
    hide Filter;
  }

  lemma {:induction false} GroupAt(vs: seq<Value>, i: nat, first: bool)
    requires i < |FirstIds(vs)|
    ensures GroupBy(vs)[i] == Group(FirstIds(vs)[i], Filter(vs, FirstIds(vs)[i]))
    ensures |HeaderFragment(first, FirstIds(vs)[i])| <= |FirstIds(vs)[i]| + 7
  {
  }

  lemma {:induction false} StampedFitsShort(vs: seq<Value>, clock: Clock, k: nat, i: nat)
    requires forall v :: v in vs && v.id != null ==> |v.id.text| <= 246 && |v.value| <= 489
    requires i < |FirstIds(vs)|
    ensures var s := StampGroups(GroupBy(vs), clock, k)[i];
            |HeaderFragment(i == 0, s.id)| < BLOCK && SeriesFits(s.readings)
  {
    hide StampGroups, GroupBy, Filter, FirstIds, SeriesFits, HeaderFragment, Stamp, UnstampedGroups;
    GroupAt(vs, i, i == 0);
    StampGroupsAt(GroupBy(vs), clock, k, i);
    GroupFitsShort(vs, FirstIds(vs)[i], clock, k + UnstampedGroups(GroupBy(vs)[..i]));
  }

  lemma {:induction false} GroupsFitShort(vs: seq<Value>, clock: Clock, k: nat)
    requires forall v :: v in vs && v.id != null ==> |v.id.text| <= 246 && |v.value| <= 489
    ensures GroupsFit(StampGroups(GroupBy(vs), clock, k))
  {
    hide StampGroups, GroupBy, Filter, FirstIds, SeriesFits, HeaderFragment;
    forall i | 0 <= i < |FirstIds(vs)|
      ensures var s := StampGroups(GroupBy(vs), clock, k)[i];
              |HeaderFragment(i == 0, s.id)| < BLOCK && SeriesFits(s.readings)
    {
      StampedFitsShort(vs, clock, k, i);
    }
  }

  /** A value publish fits when the gateway's id has at most 240 bytes, that id and each sensor's
      at most 246 together, and each value at most 489. */
  lemma {:induction false} ValueFitsShort(gw: string, vs: seq<Value>, clock: Clock, k: nat)
    requires |gw| <= 240
    requires forall v :: v in vs && v.id != null ==> |gw| + |v.id.text| <= 246 && |v.value| <= 489
    ensures ValueFits(gw, vs, clock, k)
  {
    if vs == [] {
    } else if SinglePointer(vs) {
      assert vs[0] in vs;
      NonNullMembers(vs);
      SeriesFitsShort(NonNull(vs), clock, k);
      hide SeriesFits, Stamp, NonNull;
    } else {
      GroupsFitShort(vs, clock, k);
      hide GroupsFit, StampGroups, GroupBy;
    }
  }

  lemma {:induction false} FactIdsShort(ts: seq<Thing>, now: uint64, n: nat)
    requires forall i :: 0 <= i < |ts| && ts[i].id != null ==> |ts[i].id.text| <= n
    ensures forall i :: 0 <= i < |Facts(ts, now)| ==> |Facts(ts, now)[i].id| <= n
  {
    if ts == [] {
    } else {
      FactIdsShort(ts[..|ts| - 1], now, n);
    }
  }

  /** A status publish fits when the gateway's id and each entry's have at most 239 bytes together. */
  lemma {:induction false} StatusFitsShort(gw: string, ts: seq<Thing>, now: uint64)
    requires forall i :: 0 <= i < |ts| && ts[i].id != null ==> |gw| + |ts[i].id.text| <= 239
    ensures StatusFits(gw, ts, now)
  {
    var g := GatewayIndex(ts, gw);
    if g < |ts| {
      var rest := ts[..g] + ts[g + 1..];
      FactIdsShort(rest, now, 239);
      var fs := OrderedFacts(gw, ts, now);
      assert fs[1..] == Facts(rest, now);
      forall i | 1 <= i < |fs| ensures |TripleFragment(fs[i])| < BLOCK {
        assert fs[i] == fs[1..][i - 1];
        DecimalLength(Signed64(fs[i].until));
        hide Decimal;
      }
    } else if |gw| <= 239 {
      FactIdsShort(ts, now, 239 - |gw|);
    } else {
      FactsEmpty(ts, now);
    }
  }

  function HeadFragment(f: Fact): string {
    OnOff(f.on) + "," + TimeText(f.until)
  }

  lemma {:induction false} HeadFits(f: Fact)
    ensures |HeadFragment(f)| < BLOCK && '\0' !in HeadFragment(f)
    ensures "" + HeadFragment(f) == CombinedText([f])
  {
    DecimalLength(Signed64(f.until));
    DecimalChars(Signed64(f.until));
    CombinedTextStart(f);
  }

  lemma {:induction false} TripleHasNoNul(f: Fact)
    requires '\0' !in f.id
    ensures '\0' !in TripleFragment(f)
  {
    DecimalChars(Signed64(f.until));
  }

  /** The entries of `ts[..i]` except the `g`-th. */
  function Skipping(ts: seq<Thing>, g: nat, i: nat): seq<Thing>
    requires i <= |ts| && g < |ts|
  {
    if i <= g then ts[..i] else ts[..g] + ts[g + 1..i]
  }

  /** What has been printed of the combined message after `i` turns. */
  ghost function CombinedSoFar(gw: string, ts: seq<Thing>, i: nat, now: uint64): string
    requires i <= |ts| && GatewayIndex(ts, gw) < |ts|
  {
    var g := GatewayIndex(ts, gw);
    CombinedText([FactOf(ts[g], now)] + Facts(Skipping(ts, g, i), now))
  }

  lemma {:induction false} PrefixCons(f: Fact, a: seq<Fact>, b: seq<Fact>)
    requires a <= b
    ensures [f] + a <= [f] + b
  {
  }

  lemma {:induction false} NextFact(gw: string, ts: seq<Thing>, i: nat, now: uint64)
    requires i < |ts| && GatewayIndex(ts, gw) < |ts| && i != GatewayIndex(ts, gw) && ts[i].id != null
    ensures var g := GatewayIndex(ts, gw);
            && Facts(Skipping(ts, g, i + 1), now) == Facts(Skipping(ts, g, i), now) + [FactOf(ts[i], now)]
            && [FactOf(ts[g], now)] + Facts(Skipping(ts, g, i + 1), now) <= OrderedFacts(gw, ts, now)
  {
    hide *;
    var g := GatewayIndex(ts, gw);
    var rest, next := ts[..g] + ts[g + 1..], Skipping(ts, g, i + 1);
    OrderedByGateway(gw, ts, now);
    SkippingStep(ts, g, i);
    FactsAppend(Skipping(ts, g, i), ts[i], now);
    FactsPrefix(rest, |next|, now);
    PrefixCons(FactOf(ts[g], now), Facts(next, now), Facts(rest, now));
  }

  /** One more entry of the combined message. */
  lemma {:induction false} CombinedStep(gw: string, ts: seq<Thing>, i: nat, now: uint64)
    requires i < |ts| && GatewayIndex(ts, gw) < |ts| && StatusFits(gw, ts, now)
    ensures i == GatewayIndex(ts, gw) || ts[i].id == null ==>
              CombinedSoFar(gw, ts, i + 1, now) == CombinedSoFar(gw, ts, i, now)
    ensures i != GatewayIndex(ts, gw) && ts[i].id != null ==>
              && |TripleFragment(FactOf(ts[i], now))| < BLOCK && '\0' !in TripleFragment(FactOf(ts[i], now))
              && CombinedSoFar(gw, ts, i + 1, now) ==
                 CombinedSoFar(gw, ts, i, now) + TripleFragment(FactOf(ts[i], now))
  {
    var g := GatewayIndex(ts, gw);
    if i == g || ts[i].id == null {
      SkippingStep(ts, g, i);
      FactsAppend(Skipping(ts, g, i), ts[i], now);
    } else {
      var f := FactOf(ts[i], now);
      TripleHasNoNul(f);
      NextFact(gw, ts, i, now);
      hide TripleFragment, CombinedText, Facts, Skipping, FactOf;
      var printed, fs := [FactOf(ts[g], now)] + Facts(Skipping(ts, g, i), now), OrderedFacts(gw, ts, now);
      assert [FactOf(ts[g], now)] + Facts(Skipping(ts, g, i + 1), now) == printed + [f];
      assert (printed + [f])[|printed|] == fs[|printed|];
      CombinedTextAppend(printed, f);
    }
  }

  /** What has been published after `i` turns of the loop without the gateway. */
  ghost function SplitSoFar(gw: string, ts: seq<Thing>, i: nat, now: uint64): seq<Entry>
    requires i <= |ts|
  {
    Published(Data, ThingMessages(gw, Facts(ts[..i], now)))
  }

  lemma {:induction false} SplitStarts(gw: string, ts: seq<Thing>, now: uint64)
    ensures SplitSoFar(gw, ts, 0, now) == [] && ts[..|ts|] == ts
  {
  }

  /** The fact of an entry with an id: after those of the entries before it, with the entry's id
      and state, valid for the entry's time from now on, in 64 bits. */
  lemma {:induction false} FactSays(ts: seq<Thing>, i: nat, now: uint64)
    requires i < |ts| && ts[i].id != null
    ensures var n := |Facts(ts[..i], now)|;
            && n < |Facts(ts, now)|
            && var f := Facts(ts, now)[n];
            && f.id == ts[i].id.text && f.on == ts[i].on
            && exists k: int :: f.until + 0x1_0000_0000_0000_0000 * k == now + ts[i].timeoutMs
  {
    var sum: int := now + ts[i].timeoutMs;
    assert Deadline(now, ts[i].timeoutMs) + 0x1_0000_0000_0000_0000 * (sum / 0x1_0000_0000_0000_0000) == sum;
    FactAt(ts, i, now);
    hide Facts;
  }

  lemma {:induction false} ThingFits(gw: string, ts: seq<Thing>, i: nat, now: uint64)
    requires i < |ts| && ts[i].id != null && GatewayIndex(ts, gw) == |ts| && StatusFits(gw, ts, now)
    ensures |ThingStatusTopic(gw, ts[i].id.text)| < TOPIC_LENGTH
  {
    FactAt(ts, i, now);
    assert |ThingStatusTopic(gw, OrderedFacts(gw, ts, now)[|Facts(ts[..i], now)|].id)| < TOPIC_LENGTH;
  }

  lemma {:induction false} SplitStepLaw(gw: string, ts: seq<Thing>, i: nat, now: uint64)
    requires i < |ts|
    ensures ts[i].id == null ==> SplitSoFar(gw, ts, i + 1, now) == SplitSoFar(gw, ts, i, now)
    ensures ts[i].id != null ==>
              SplitSoFar(gw, ts, i + 1, now) ==
              SplitSoFar(gw, ts, i, now) + [Publish(Data, ThingMessage(gw, FactOf(ts[i], now)))]
  {
    if ts[i].id == null {
      assert ts[..i + 1] == ts[..i] + [ts[i]];
      FactsAppend(ts[..i], ts[i], now);
    } else {
      FactAt(ts, i, now);
      var fs, f := Facts(ts[..i], now), FactOf(ts[i], now);
      var ms := ThingMessages(gw, fs + [f]);
      hide Facts, FactOf, ThingMessage;
      assert (fs + [f])[..|fs + [f]| - 1] == fs;
      assert ms[..|ms| - 1] == ThingMessages(gw, fs);
    }
  }

  lemma {:induction false} CombinedEnds(gw: string, ts: seq<Thing>, now: uint64)
    requires GatewayIndex(ts, gw) < |ts|
    ensures CombinedSoFar(gw, ts, |ts|, now) == CombinedText(OrderedFacts(gw, ts, now))
    ensures CombinedSoFar(gw, ts, 0, now) == CombinedText([FactOf(ts[GatewayIndex(ts, gw)], now)])
  {
    var g := GatewayIndex(ts, gw);
    assert Skipping(ts, g, |ts|) == ts[..g] + ts[g + 1..] && Skipping(ts, g, 0) == [];
    assert [FactOf(ts[g], now)] + Facts([], now) == [FactOf(ts[g], now)];
  }

  lemma {:induction false} SkippingStep(ts: seq<Thing>, g: nat, i: nat)
    requires i < |ts| && g < |ts|
    ensures Skipping(ts, g, i + 1) == if i == g then Skipping(ts, g, i) else Skipping(ts, g, i) + [ts[i]]
    ensures |Skipping(ts, g, i + 1)| < |ts|
    ensures Skipping(ts, g, i + 1) == (ts[..g] + ts[g + 1..])[..|Skipping(ts, g, i + 1)|]
  {
  }

  lemma {:induction false} SinglePrint(gw: string, vs: seq<Value>, clock: Clock, k: nat)
    requires vs != [] && SinglePointer(vs) && ValueFits(gw, vs, clock, k)
    ensures ValueReads(vs) == Unstamped(NonNull(vs)) && SeriesFits(Stamp(NonNull(vs), clock, k))
    ensures SomeId(vs) <==> NonNull(vs) != []
    ensures ValueMessage(gw, vs, clock, k) ==
            Message("v/a/g/" + gw + "/s/" + IdText(vs[0].id), "" + SeriesText(Stamp(NonNull(vs), clock, k)))
  {
    NonNullEmpty(vs);
    hide Stamp, NonNull;
    assert "" + SeriesText(Stamp(NonNull(vs), clock, k)) == SeriesText(Stamp(NonNull(vs), clock, k));
  }

  lemma {:induction false} GroupedPrint(gw: string, vs: seq<Value>, clock: Clock, k: nat)
    requires vs != [] && !SinglePointer(vs) && ValueFits(gw, vs, clock, k)
    ensures ValueReads(vs) == UnstampedGroups(GroupBy(vs)) && SomeId(vs)
    ensures GroupsFit(StampGroups(GroupBy(vs), clock, k))
    ensures ValueMessage(gw, vs, clock, k) ==
            Message("v/a/g/" + gw, "" + OpenText(StampGroups(GroupBy(vs), clock, k)) + "}")
  {
    RouteLaws(vs, clock, k);
    OpenTextClosed(StampGroups(GroupBy(vs), clock, k));
    hide OpenText, GroupedText, StampGroups, GroupBy, NonNull;
  }

  class Client {
    const gw: CText
    const clock: ClockSource
    var state: State
    var callbacks: Option<Callbacks>
    var manager: Manager?
    ghost var trace: seq<Entry>
    /** How often the clock was read before this client was made, and the events since. */
    ghost const from: nat
    ghost var events: seq<Event>

    /** The callbacks and the device manager are set together. */
    ghost predicate Valid()
      reads this
    {
      && GatewayFits(gw)
      && if callbacks.None? then manager == null else manager != null && manager.ops == callbacks.value.ops
    }

    /** The object is where its events have led it. */
    ghost predicate Recorded()
      reads this, clock
    {
      Abstract() == Run(gw, clock.reading, from, events)
    }

    /** Whatever happened to this client, its trace is sound, its presence messages are those of its
        connects and disconnect calls, and it is connected while its latest link event is a connect. */
    lemma {:induction false} TraceSound()
      requires Recorded()
      ensures Sound(gw, Abstract()) && PresenceKept(gw, trace)
      ensures state == Connected <==> exists n: nat :: UpFrom(events, n)
    {
      RunSound(gw, clock.reading, from, events);
      RunPresence(gw, clock.reading, from, events);
      StateByEvents(gw, clock.reading, from, events);
      hide Run, Sound, PresenceKept, UpFrom;
    }

    ghost method Note(e: Event)
      modifies this`events
      ensures events == old(events) + [e]
      ensures Run(gw, clock.reading, from, events) ==
              Step(gw, clock.reading, Run(gw, clock.reading, from, old(events)), e)
    {
      RunAppend(gw, clock.reading, from, events, e);
      hide *;
      events := events + [e];
    }

    ghost function Abstract(): Session
      reads this, clock
    {
      Session(state, callbacks, clock.calls, trace)
    }

    /** `mqtt_init`. */
    constructor (gw: CText, clock: ClockSource)
      requires GatewayFits(gw)
      ensures Valid() && this.gw == gw && this.clock == clock && Abstract() == Fresh(clock.calls)
      ensures from == clock.calls && events == [] && Recorded()
    {
      this.gw, this.clock, from, events := gw, clock, clock.calls, [];
      state, callbacks, manager, trace := Initialized, None, null, [];
    }

    /** `mqtt_callback_set`. */
    method CallbackSet(callbacks: Callbacks)
      requires Valid()
      modifies this
      ensures Valid() && Abstract() == Step(gw, clock.reading, old(Abstract()), Event.CallbackSet(callbacks))
      ensures manager != null && fresh(manager)
      ensures events == old(events) + [Event.CallbackSet(callbacks)] && (old(Recorded()) ==> Recorded())
    {
      hide Run;
      Note(Event.CallbackSet(callbacks));
      this.callbacks := Some(callbacks);
      manager := new Manager(callbacks.ops);
    }

    /** `_mqtt_status_publish`. */
    method PresencePublish(connected: bool)
      requires GatewayFits(gw)
      modifies this`trace
      ensures trace == old(trace) + [Publish(Presence, PresenceMessage(gw, connected))]
      ensures PresenceMessage(gw, connected) ==
              Message("v/a/g/" + gw + "/mqtt/status", if connected then "on" else "off")
    {
      var payload := new Payload();
      var value := if connected then "on" else "off";
      var size := payload.Packetize(0, value);
      assert "" + value == value;
      trace := trace + [Publish(Presence, Message("v/a/g/" + gw + "/mqtt/status", payload.text))];
    }

    /** `_cb_connected`. */
    method OnConnect(code: int)
      requires Valid()
      modifies this
      ensures Valid() && Abstract() == Step(gw, clock.reading, old(Abstract()), Event.OnConnect(code))
      ensures manager == old(manager)
      ensures events == old(events) + [Event.OnConnect(code)] && (old(Recorded()) ==> Recorded())
    {
      hide Run;
      Note(Event.OnConnect(code));
      trace := trace + [LinkUp(code)];
      if code == 0 {
        state := Connected;
        trace := trace + [Subscribe(RequestTopic(gw))];
        PresencePublish(true);
      }
      if callbacks.Some? && callbacks.value.connected {
        var error;
        match code {
          case 0 => error := 0;
          case 1 => error := -7;
          case 2 => error := -3;
          case 3 => error := -4;
          case 4 => error := -3;
          case 5 => error := -8;
          case _ => error := -99;
        }
        trace := trace + [UserConnected(error)];
      }
    }

    /** `_cb_disconnected`. */
    method OnDisconnect(code: int)
      requires Valid()
      modifies this
      ensures Valid() && Abstract() == Step(gw, clock.reading, old(Abstract()), Event.OnDisconnect(code))
      ensures manager == old(manager)
      ensures events == old(events) + [Event.OnDisconnect(code)] && (old(Recorded()) ==> Recorded())
    {
      hide Run;
      Note(Event.OnDisconnect(code));
      trace := trace + [LinkDown(code)];
      state := Disconnected;
      if callbacks.Some? && callbacks.value.disconnected {
        trace := trace + [UserDisconnected(if code != 0 then -10 else 0)];
      }
    }

    /** `_cb_message`: before the callbacks are set there is no device manager and no answer. */
    method OnMessage(request: Option<Request>, verdict: Verdict)
      requires Valid()
      requires manager != null && request.Some? && request.value.id.Some? ==>
                 |ReplyText(ReplyTo(manager.ops, request.value, verdict))| < BLOCK
      modifies this, manager
      ensures Valid() && Abstract() == Step(gw, clock.reading, old(Abstract()), Event.OnMessage(request, verdict))
      ensures manager == old(manager)
      ensures manager != null ==>
                manager.calls == old(if manager == null then [] else manager.calls) +
                if request.None? then [] else Calls(manager.ops, request.value)
      ensures events == old(events) + [Event.OnMessage(request, verdict)] && (old(Recorded()) ==> Recorded())
    {
      hide Run, ReplyText, ReplyTo;
      Note(Event.OnMessage(request, verdict));
      if manager == null {
        return;
      }
      var result := manager.Do(request, verdict);
      if result == null {
        return;
      }
      ghost var calls := Calls(manager.ops, request.value);
      trace := trace + (if calls == [] then [] else [UserCall(calls[0])])
               + [Publish(Answer, Message(ResponseTopic(gw), result.text))];
    }

    /** `mqtt_disconnect`. */
    method HangUp()
      requires Valid()
      modifies this
      ensures Valid() && Abstract() == Step(gw, clock.reading, old(Abstract()), DisconnectCall)
      ensures manager == old(manager)
      ensures events == old(events) + [DisconnectCall] && (old(Recorded()) ==> Recorded())
    {
      hide Run;
      Note(DisconnectCall);
      if state != Initialized {
        trace := trace + [Unsubscribe(RequestTopic(gw))];
      }
      if state == Connected {
        PresencePublish(false);
      }
      trace := trace + [Disconnect, LoopStop];
    }

    /** `_values_contain_single_sensor`. */
    method ContainSingleSensor(nrValue: nat, values: array<Value>) returns (single: bool)
      requires 0 < nrValue <= values.Length
      ensures single <==> forall i :: 0 <= i < nrValue ==> values[i].id == null || values[i].id == values[0].id
    {
      if nrValue == 1 {
        return true;
      }
      var id := values[0].id;
      var i := 1;
      while i < nrValue
        invariant 1 <= i <= nrValue
        invariant forall k :: 1 <= k < i ==> values[k].id == null || values[k].id == id
      {
        if values[i].id != null && values[i].id != id {
          return false;
        }
        i := i + 1;
      }
      return true;
    }

    /** The two encodings of `mqtt_value_publish`. */
    method ValuePrint(nrValue: nat, values: array<Value>) returns (topic: string, payload: Payload)
      requires 0 < nrValue <= values.Length && ValueFits(gw, values[..nrValue], clock.reading, clock.calls)
      modifies clock
      ensures fresh(payload) && clock.calls == old(clock.calls) + ValueReads(old(values[..nrValue]))
      ensures payload.bytes == null <==> !SomeId(old(values[..nrValue]))
      ensures payload.bytes != null ==>
                Message(topic, payload.text) ==
                ValueMessage(gw, old(values[..nrValue]), clock.reading, old(clock.calls))
    {
      hide *;
      payload := new Payload();
      ghost var vs, k := values[..nrValue], clock.calls;
      var single := ContainSingleSensor(nrValue, values);
      OnePointer(vs);
      assert forall i :: 0 <= i < nrValue ==> vs[i] == values[i];
      if single {
        SinglePrint(gw, vs, clock.reading, k);
        topic := "v/a/g/" + gw + "/s/" + IdText(values[0].id);
        var size := SensorValuePacketize(payload, 0, nrValue, values, clock);
      } else {
        GroupedPrint(gw, vs, clock.reading, k);
        topic := "v/a/g/" + gw;
        var size := SensorsValuePacketize(payload, 0, nrValue, values, clock);
      }
    }

    /** `mqtt_value_publish`. A connected client reaches the publish exactly when some entry has
        an id; otherwise it measures a payload that was never allocated. */
    method ValuePublish(nrValue: int, values: array?<Value>, accepted: bool) returns (r: Outcome)
      requires Valid()
      requires values != null ==> nrValue <= values.Length
      requires state == Connected && nrValue > 0 && values != null ==>
                 ValueFits(gw, values[..nrValue], clock.reading, clock.calls)
      modifies this`trace, this`events, clock
      ensures Valid() && (old(Recorded()) ==> Recorded())
      ensures nrValue <= 0 || values == null ==> r == Returned(INVALID_ARGUMENT) && Abstract() == old(Abstract())
      ensures nrValue > 0 && values != null ==>
                var vs := old(values[..nrValue]);
                && Abstract() == Step(gw, clock.reading, old(Abstract()), ValueCall(vs))
                && events == old(events) + [ValueCall(vs)]
                && r == (if state != Connected then Returned(NOT_CONNECTED)
                         else if !SomeId(vs) then NullPayload
                         else Returned(if accepted then 0 else -1))
    {
      hide Run, ValueMessage, ValueReads, ValueFits, SomeId;
      if nrValue <= 0 || values == null {
        return Returned(INVALID_ARGUMENT);
      }
      Note(ValueCall(values[..nrValue]));
      if state != Connected {
        return Returned(NOT_CONNECTED);
      }
      var topic, payload := ValuePrint(nrValue, values);
      if payload.bytes == null {
        RouteLaws(old(values[..nrValue]), clock.reading, 0);
        return NullPayload;
      }
      trace := trace + [Publish(Data, Message(topic, payload.text))];
      return Returned(if accepted then 0 else -1);
    }

    /** The search loop of `mqtt_status_publish`. */
    method FindGateway(nrThing: nat, things: array<Thing>) returns (index: int)
      requires nrThing <= things.Length
      ensures index == -1 <==> forall i :: 0 <= i < nrThing ==> things[i].id == null || things[i].id.text != gw
      ensures index != -1 ==>
                && 0 <= index < nrThing && things[index].id != null && things[index].id.text == gw
                && forall i :: 0 <= i < index ==> things[i].id == null || things[i].id.text != gw
    {
      for i := 0 to nrThing
        invariant forall k :: 0 <= k < i ==> things[k].id == null || things[k].id.text != gw
      {
        if things[i].id != null && things[i].id.text == gw {
          return i;
        }
      }
      return -1;
    }

    /** The gateway's branch: one combined message. */
    method CombinedPrint(nrThing: nat, things: array<Thing>, g: nat, now: uint64) returns (payload: Payload)
      requires nrThing <= things.Length && g < nrThing
      requires g == GatewayIndex(things[..nrThing], gw) && StatusFits(gw, things[..nrThing], now)
      ensures fresh(payload)
      ensures payload.text == CombinedText(OrderedFacts(gw, things[..nrThing], now))
    {
      ghost var ts := things[..nrThing];
      assert ts[g].id != null && ts[g] == things[g];
      hide *;
      payload := new Payload();
      CombinedEnds(gw, ts, now);
      HeadFits(FactOf(ts[g], now));
      var size := payload.Packetize(0, HeadFragment(FactOf(things[g], now)));
      CombinedRest(payload, size, nrThing, things, g, now, ts);
    }

    /** The loop of the gateway's branch. */
    method CombinedRest(payload: Payload, payloadSize: nat, nrThing: nat, things: array<Thing>, g: nat, now: uint64,
                        ghost ts: seq<Thing>)
      requires nrThing <= things.Length && g < nrThing && ts == things[..nrThing]
      requires g == GatewayIndex(ts, gw) && StatusFits(gw, ts, now) && things !in payload.Repr
      requires payload.Valid() && payloadSize == payload.Capacity() && payload.text == CombinedSoFar(gw, ts, 0, now)
      modifies payload.Repr
      ensures payload.text == CombinedSoFar(gw, ts, nrThing, now)
    {
      hide *;
      var size := payloadSize;
      for i := 0 to nrThing
        invariant payload.Valid() && size == payload.Capacity() && fresh(payload.Repr - old(payload.Repr))
        invariant payload.text == CombinedSoFar(gw, ts, i, now)
      {
        CombinedStep(gw, ts, i, now);
        assert things[i] == ts[i];
        if i == g || things[i].id == null {
          continue;
        }
        size := payload.Packetize(size, TripleFragment(FactOf(things[i], now)));
      }
    }

    /** The branch without the gateway: a buffer and a message for each thing. */
    method SplitPublish(nrThing: nat, things: array<Thing>, now: uint64)
      requires 0 < nrThing <= things.Length && GatewayIndex(things[..nrThing], gw) == nrThing
      requires StatusFits(gw, things[..nrThing], now)
      modifies this`trace
      ensures trace == old(trace) + SplitSoFar(gw, things[..nrThing], nrThing, now)
    {
      hide *;
      ghost var ts, before := things[..nrThing], trace;
      SplitStarts(gw, ts, now);
      assert trace == before + [];
      for i := 0 to nrThing
        invariant trace == before + SplitSoFar(gw, ts, i, now)
      {
        SplitStepLaw(gw, ts, i, now);
        assert things[i] == ts[i];
        if things[i].id == null {
          continue;
        }
        ThingFits(gw, ts, i, now);
        PublishThing(things[i], now);
      }
    }

    /** One turn: a fresh buffer, the thing's own topic. */
    method PublishThing(t: Thing, now: uint64)
      requires t.id != null && |ThingStatusTopic(gw, t.id.text)| < TOPIC_LENGTH
      modifies this`trace
      ensures trace == old(trace) + [Publish(Data, ThingMessage(gw, FactOf(t, now)))]
    {
      HeadFits(FactOf(t, now));
      ThingMessageParts(gw, FactOf(t, now));
      var topic := "v/a/g/" + gw + "/s/" + t.id.text + "/status";
      assert topic == "v/a/g/" + gw + "/s/" + FactOf(t, now).id + "/status";
      hide *;
      var payload := new Payload();
      var size := payload.Packetize(0, HeadFragment(FactOf(t, now)));
      trace := trace + [Publish(Data, Message(topic, payload.text))];
    }

    /** What a connected client sends, from the search for the gateway on. */
    method StatusSend(nrThing: nat, things: array<Thing>)
      requires 0 < nrThing <= things.Length
      requires StatusFits(gw, things[..nrThing], clock.reading(clock.calls))
      modifies this`trace, clock
      ensures clock.calls == old(clock.calls) + 1
      ensures trace == old(trace) +
                       Published(Data, StatusMessages(gw, old(things[..nrThing]), clock.reading(old(clock.calls))))
    {
      hide *;
      var g := FindGateway(nrThing, things);
      var now := clock.NowMs();
      ghost var ts := things[..nrThing];
      assert forall i :: 0 <= i < nrThing ==> ts[i] == things[i];
      GatewayPlace(ts, gw, if g == -1 then nrThing else g);
      StatusEntries(gw, ts, now);
      if g != -1 {
        var payload := CombinedPrint(nrThing, things, g, now);
        trace := trace + [Publish(Data, Message("v/a/g/" + gw + "/status", payload.text))];
      } else {
        SplitPublish(nrThing, things, now);
      }
    }

    /** `mqtt_status_publish`. The clock is read once; a refused publish is only logged. */
    method StatusPublish(nrThing: int, things: array?<Thing>) returns (code: int)
      requires Valid()
      requires things != null ==> nrThing <= things.Length
      requires state == Connected && nrThing > 0 && things != null ==>
                 StatusFits(gw, things[..nrThing], clock.reading(clock.calls))
      modifies this`trace, this`events, clock
      ensures Valid() && (old(Recorded()) ==> Recorded())
      ensures nrThing <= 0 || things == null ==> code == INVALID_ARGUMENT && Abstract() == old(Abstract())
      ensures nrThing > 0 && things != null ==>
                && Abstract() == Step(gw, clock.reading, old(Abstract()), StatusCall(old(things[..nrThing])))
                && events == old(events) + [StatusCall(old(things[..nrThing]))]
                && code == if state == Connected then 0 else NOT_CONNECTED
    {
      hide Run, StatusMessages, StatusFits, Published;
      if nrThing <= 0 || things == null {
        return INVALID_ARGUMENT;
      }
      Note(StatusCall(things[..nrThing]));
      if state != Connected {
        return NOT_CONNECTED;
      }
      StatusSend(nrThing, things);
      code := 0;
    }
  }

  lemma {:induction false} StatusEntries(gw: string, ts: seq<Thing>, now: uint64)
    ensures Published(Data, StatusMessages(gw, ts, now)) ==
            if GatewayIndex(ts, gw) == |ts| then SplitSoFar(gw, ts, |ts|, now)
            else [Publish(Data, Message("v/a/g/" + gw + "/status", CombinedText(OrderedFacts(gw, ts, now))))]
  {
    assert ts[..|ts|] == ts;
  }

  lemma {:induction false} ThingMessageParts(gw: string, f: Fact)
    ensures ThingMessage(gw, f) == Message("v/a/g/" + gw + "/s/" + f.id + "/status", "" + HeadFragment(f))
  {
    assert "" + HeadFragment(f) == HeadFragment(f);
  }
}

/** The wire grammar of status messages, and what a status publish says. */
module Status {
  import opened Text
  import opened Telemetry

  /** `struct thingplus_status`; a NULL id marks an entry to skip. */
  datatype Thing = Thing(id: CString?, on: bool, timeoutMs: int32)

  /** One statement on the wire: a thing is on or off, valid until a time. */
  datatype Fact = Fact(id: string, on: bool, until: uint64)

  /** `now + timeout_ms` in unsigned 64-bit arithmetic. */
  function Deadline(now: uint64, timeoutMs: int32): uint64 {
    (now + timeoutMs) % 0x1_0000_0000_0000_0000
  }

  function FactOf(t: Thing, now: uint64): Fact
    requires t.id != null
  {
    Fact(t.id.text, t.on, Deadline(now, t.timeoutMs))
  }

  /** The entries with an id, in input order. */
  function Facts(ts: seq<Thing>, now: uint64): seq<Fact> {
    if ts == [] then []
    else
      var init, t := Facts(ts[..|ts| - 1], now), ts[|ts| - 1];
      if t.id == null then init else init + [FactOf(t, now)]
  }

  predicate IsGateway(t: Thing, gw: string) {
    t.id != null && t.id.text == gw
  }

  /** Where the gateway's own entry is, or the length when it has none. */
  function GatewayIndex(ts: seq<Thing>, gw: string): (g: nat)
    ensures g <= |ts| && (g < |ts| ==> IsGateway(ts[g], gw))
    ensures forall i :: 0 <= i < g ==> !IsGateway(ts[i], gw)
  {
    if ts == [] || IsGateway(ts[0], gw) then 0 else 1 + GatewayIndex(ts[1..], gw)
  }

  /** The gateway's entry is the first one with its id text, whatever else that entry says. */
  lemma {:induction false} GatewayPlace(ts: seq<Thing>, gw: string, g: nat)
    requires g <= |ts| && forall i :: 0 <= i < g ==> ts[i].id == null || ts[i].id.text != gw
    requires g < |ts| ==> ts[g].id != null && ts[g].id.text == gw
    ensures GatewayIndex(ts, gw) == g
  {
    if ts == [] || g == 0 {
    } else {
      GatewayPlace(ts[1..], gw, g - 1);
    }
  }

  /** The facts in the order they are published: the gateway first, if it is there. */
  function OrderedFacts(gw: string, ts: seq<Thing>, now: uint64): seq<Fact> {
    var g := GatewayIndex(ts, gw);
    if g == |ts| then Facts(ts, now)
    else [FactOf(ts[g], now)] + Facts(ts[..g] + ts[g + 1..], now)
  }

  // ---------------------------------------------------------------- printing

  function OnOff(on: bool): string {
    if on then "on" else "off"
  }

  function TimeText(t: uint64): string {
    Decimal(Signed64(t))
  }

  function TripleFields(fs: seq<Fact>): seq<string> {
    if fs == [] then []
    else [fs[0].id, OnOff(fs[0].on), TimeText(fs[0].until)] + TripleFields(fs[1..])
  }

  /** `{status},{until},{id},{status},{until},...` */
  function CombinedText(fs: seq<Fact>): string
    requires fs != []
  {
    Join([OnOff(fs[0].on), TimeText(fs[0].until)] + TripleFields(fs[1..]), ",")
  }

  function GatewayStatusTopic(gw: string): string {
    "v/a/g/" + gw + "/status"
  }

  function ThingStatusTopic(gw: string, id: string): string {
    "v/a/g/" + gw + "/s/" + id + "/status"
  }

  function ThingMessage(gw: string, f: Fact): Message {
    Message(ThingStatusTopic(gw, f.id), OnOff(f.on) + "," + TimeText(f.until))
  }

  function ThingMessages(gw: string, fs: seq<Fact>): (ms: seq<Message>)
    ensures |ms| == |fs|
  {
    if fs == [] then [] else ThingMessages(gw, fs[..|fs| - 1]) + [ThingMessage(gw, fs[|fs| - 1])]
  }

  /** What a status publish sends: one message when the gateway is among the things, one for
      each thing otherwise. */
  function StatusMessages(gw: string, ts: seq<Thing>, now: uint64): seq<Message> {
    var fs := OrderedFacts(gw, ts, now);
    if GatewayIndex(ts, gw) == |ts| then ThingMessages(gw, fs)
    else [Message(GatewayStatusTopic(gw), CombinedText(fs))]
  }

  function TripleFragment(f: Fact): string {
    "," + f.id + "," + OnOff(f.on) + "," + TimeText(f.until)
  }

  lemma {:induction false} TripleFieldsAppend(fs: seq<Fact>, f: Fact)
    ensures TripleFields(fs + [f]) == TripleFields(fs) + [f.id, OnOff(f.on), TimeText(f.until)]
  {
    if fs == [] {
    } else {
      assert (fs + [f])[1..] == fs[1..] + [f];
      TripleFieldsAppend(fs[1..], f);
    }
  }

  lemma {:induction false} TripleText(f: Fact)
    ensures "," + Join([f.id, OnOff(f.on), TimeText(f.until)], ",") == TripleFragment(f)
  {
    hide Decimal;
    JoinCons(OnOff(f.on), [TimeText(f.until)], ",");
    JoinCons(f.id, [OnOff(f.on), TimeText(f.until)], ",");
    assert [f.id] + [OnOff(f.on), TimeText(f.until)] == [f.id, OnOff(f.on), TimeText(f.until)];
    assert [OnOff(f.on)] + [TimeText(f.until)] == [OnOff(f.on), TimeText(f.until)];
    assert "," + (f.id + "," + (OnOff(f.on) + "," + TimeText(f.until))) == TripleFragment(f);
  }

  lemma {:induction false} CombinedTextAppend(fs: seq<Fact>, f: Fact)
    requires fs != []
    ensures CombinedText(fs + [f]) == CombinedText(fs) + TripleFragment(f)
  {
    var head := [OnOff(fs[0].on), TimeText(fs[0].until)];
    var three := [f.id, OnOff(f.on), TimeText(f.until)];
    TripleFieldsAppend(fs[1..], f);
    TripleText(f);
    hide Decimal, TripleFragment;
    assert (fs + [f])[1..] == fs[1..] + [f];
    JoinAppend(head + TripleFields(fs[1..]), three, ",");
    assert head + TripleFields(fs[1..]) + three == head + (TripleFields(fs[1..]) + three);
    ConcatAssoc(CombinedText(fs), ",", Join(three, ","));
  }

  lemma {:induction false} FactsAppend(ts: seq<Thing>, t: Thing, now: uint64)
    ensures Facts(ts + [t], now) == Facts(ts, now) + if t.id == null then [] else [FactOf(t, now)]
  {
    assert (ts + [t])[..|ts + [t]| - 1] == ts;
  }

  lemma {:induction false} CombinedTextStart(f: Fact)
    ensures CombinedText([f]) == OnOff(f.on) + "," + TimeText(f.until)
  {
    JoinCons(OnOff(f.on), [TimeText(f.until)], ",");
    assert [OnOff(f.on)] + [TimeText(f.until)] == [OnOff(f.on), TimeText(f.until)] + TripleFields([f][1..]);
  }

  // ---------------------------------------------------------------- decoding

  function DecodeOnOff(s: string): Option<bool> {
    if s == "on" then Some(true) else if s == "off" then Some(false) else None
  }

  function DecodeFact(id: string, onOff: string, until: string): Option<Fact> {
    match DecodeOnOff(onOff)
    case None => None
    case Some(on) =>
      match DecodeTime(until)
      case None => None
      case Some(t) => Some(Fact(id, on, t))
  }

  function DecodeTriples(fields: seq<string>): Option<seq<Fact>> {
    if fields == [] then Some([])
    else if |fields| < 3 then None
    else
      match DecodeFact(fields[0], fields[1], fields[2])
      case None => None
      case Some(f) =>
        match DecodeTriples(fields[3..])
        case None => None
        case Some(fs) => Some([f] + fs)
  }

  /** What the platform reads in one status message. */
  function DecodeStatus(m: Message): Option<seq<Fact>> {
    var parts, fields := Split(m.topic, '/'), Split(m.payload, ',');
    if |fields| < 2 || |parts| < 5 || parts[..3] != ["v", "a", "g"] || parts[|parts| - 1] != "status" then None
    else if |parts| == 5 then DecodeTriples([parts[3]] + fields)
    else if |parts| == 7 && parts[4] == "s" && |fields| == 2 then DecodeTriples([parts[5]] + fields)
    else None
  }

  /** All the facts of a sequence of messages. */
  function DecodeAll(ms: seq<Message>): Option<seq<Fact>> {
    if ms == [] then Some([])
    else
      match DecodeAll(ms[..|ms| - 1])
      case None => None
      case Some(fs) =>
        match DecodeStatus(ms[|ms| - 1])
        case None => None
        case Some(gs) => Some(fs + gs)
  }

  // ---------------------------------------------------------------- meaning

  lemma {:induction false} FactRoundTrip(f: Fact)
    ensures DecodeFact(f.id, OnOff(f.on), TimeText(f.until)) == Some(f)
  {
    TimeRoundTrip(f.until);
  }

  lemma {:induction false} TripleStep(f: Fact, fields: seq<string>, fs: seq<Fact>)
    requires DecodeTriples(fields) == Some(fs)
    ensures DecodeTriples([f.id, OnOff(f.on), TimeText(f.until)] + fields) == Some([f] + fs)
  {
    FactRoundTrip(f);
    assert ([f.id, OnOff(f.on), TimeText(f.until)] + fields)[3..] == fields;
    hide DecodeFact, OnOff, TimeText;
  }

  lemma {:induction false} TriplesRoundTrip(fs: seq<Fact>)
    ensures DecodeTriples(TripleFields(fs)) == Some(fs)
  {
    if fs == [] {
    } else {
      assert TripleFields(fs) == [fs[0].id, OnOff(fs[0].on), TimeText(fs[0].until)] + TripleFields(fs[1..]);
      hide *;
      TriplesRoundTrip(fs[1..]);
      TripleStep(fs[0], TripleFields(fs[1..]), fs[1..]);
      assert [fs[0]] + fs[1..] == fs;
    }
  }

  lemma {:induction false} TripleFieldsPlain(fs: seq<Fact>)
    requires FactIdsLack(fs, ',')
    ensures forall s :: s in TripleFields(fs) ==> ',' !in s
  {
    if fs == [] {
    } else {
      DecimalChars(Signed64(fs[0].until));
      TripleFieldsPlain(fs[1..]);
    }
  }

  lemma {:induction false} TopicTail(gw: string, id: string)
    ensures GatewayStatusTopic(gw) == "v/a/g/" + (gw + "/" + "status")
    ensures ThingStatusTopic(gw, id) == "v/a/g/" + (gw + "/" + ("s" + "/" + (id + "/" + "status")))
  {
    assert "/status" == "/" + "status" && "/s/" == "/" + ("s" + "/");
    assert "v/a/g/" + gw + "/s/" + id + "/status" == "v/a/g/" + (gw + "/s/" + (id + "/status"));
    assert gw + "/s/" + (id + "/status") == gw + "/" + ("s" + "/" + (id + "/status"));
  }

  lemma {:induction false} StatusTopicParts(gw: string, id: string)
    ensures Split(GatewayStatusTopic(gw), '/') == ["v", "a", "g"] + (Split(gw, '/') + ["status"])
    ensures Split(ThingStatusTopic(gw, id), '/') ==
            ["v", "a", "g"] + (Split(gw, '/') + (["s"] + (Split(id, '/') + ["status"])))
  {
    hide *;
    TopicTail(gw, id);
    SplitSingle("status", '/');
    SplitSingle("s", '/');
    SplitConcat(gw, "status", '/');
    TopicPrefix(gw + "/" + "status");
    SplitConcat(id, "status", '/');
    SplitConcat("s", id + "/" + "status", '/');
    SplitConcat(gw, "s" + "/" + (id + "/" + "status"), '/');
    TopicPrefix(gw + "/" + ("s" + "/" + (id + "/" + "status")));
  }

  lemma {:induction false} CombinedFields(fs: seq<Fact>)
    requires fs != [] && FactIdsLack(fs[1..], ',')
    ensures Split(CombinedText(fs), ',') == [OnOff(fs[0].on), TimeText(fs[0].until)] + TripleFields(fs[1..])
  {
    DecimalChars(Signed64(fs[0].until));
    TripleFieldsPlain(fs[1..]);
    SplitJoin([OnOff(fs[0].on), TimeText(fs[0].until)] + TripleFields(fs[1..]), ',');
  }

  lemma {:induction false} CombinedRoundTrip(gw: string, fs: seq<Fact>)
    requires fs != [] && fs[0].id == gw && '/' !in gw && FactIdsLack(fs[1..], ',')
    ensures DecodeStatus(Message(GatewayStatusTopic(gw), CombinedText(fs))) == Some(fs)
  {
    StatusTopicParts(gw, "");
    SplitSingle(gw, '/');
    CombinedFields(fs);
    TriplesRoundTrip(fs);
    hide Decimal, Join, Split, GatewayStatusTopic, CombinedText, DecodeTriples, OnOff, TimeText;
    assert [gw] + ([OnOff(fs[0].on), TimeText(fs[0].until)] + TripleFields(fs[1..])) == TripleFields(fs);
  }

  /** The ids of decoded facts are among the fields; the first id is the first field. */
  lemma {:induction false} TripleIds(fields: seq<string>)
    requires DecodeTriples(fields).Some?
    ensures var fs := DecodeTriples(fields).value;
            && (forall f :: f in fs ==> f.id in fields)
            && (fs != [] ==> fields != [] && fs[0].id == fields[0] && forall f :: f in fs[1..] ==> f.id in fields[1..])
  {
    if fields == [] {
    } else {
      TripleIds(fields[3..]);
      var rest := DecodeTriples(fields[3..]).value;
      assert DecodeTriples(fields).value[1..] == rest;
      assert forall s :: s in fields[3..] ==> s in fields[1..];
    }
  }

  lemma {:induction false} CombinedCarried(gw: string, fs: seq<Fact>)
    requires fs != [] && fs[0].id == gw
    requires DecodeStatus(Message(GatewayStatusTopic(gw), CombinedText(fs))) == Some(fs)
    ensures '/' !in gw && FactIdsLack(fs[1..], ',')
  {
    var parts, fields := Split(GatewayStatusTopic(gw), '/'), Split(CombinedText(fs), ',');
    SplitParts(GatewayStatusTopic(gw), '/');
    SplitParts(CombinedText(fs), ',');
    hide Split, GatewayStatusTopic, CombinedText, DecodeTriples;
    var p :| p in parts && DecodeTriples([p] + fields) == Some(fs);
    TripleIds([p] + fields);
    assert ([p] + fields)[1..] == fields;
    assert forall i :: 0 <= i < |fs[1..]| ==> fs[1..][i] in fs[1..];
  }

  /** The combined message is read back as it was meant exactly when it can carry it. */
  lemma {:induction false} CombinedMeaning(gw: string, fs: seq<Fact>)
    requires fs != [] && fs[0].id == gw
    ensures DecodeStatus(Message(GatewayStatusTopic(gw), CombinedText(fs))) == Some(fs) <==>
            '/' !in gw && FactIdsLack(fs[1..], ',')
  {
    hide *;
    if '/' !in gw && FactIdsLack(fs[1..], ',') {
      CombinedRoundTrip(gw, fs);
    }
    if DecodeStatus(Message(GatewayStatusTopic(gw), CombinedText(fs))) == Some(fs) {
      CombinedCarried(gw, fs);
    }
  }

  lemma {:induction false} ThingRoundTrip(gw: string, f: Fact)
    requires '/' !in gw && '/' !in f.id
    ensures DecodeStatus(ThingMessage(gw, f)) == Some([f])
  {
    StatusTopicParts(gw, f.id);
    SplitSingle(gw, '/');
    SplitSingle(f.id, '/');
    CombinedTextStart(f);
    DecimalChars(Signed64(f.until));
    var fields := [OnOff(f.on), TimeText(f.until)];
    SplitJoin(fields, ',');
    assert fields + TripleFields([f][1..]) == fields && [f.id] + fields == TripleFields([f]);
    TriplesRoundTrip([f]);
  }

  /** A thing's own message says that thing's fact when neither id has a slash, and nothing otherwise. */
  lemma {:induction false} ThingMeaning(gw: string, f: Fact)
    ensures DecodeStatus(ThingMessage(gw, f)) == if '/' !in gw && '/' !in f.id then Some([f]) else None
  {
    if '/' !in gw && '/' !in f.id {
      ThingRoundTrip(gw, f);
    } else {
      StatusTopicParts(gw, f.id);
      SplitSingle(gw, '/');
      SplitSingle(f.id, '/');
      hide Split, ThingStatusTopic, DecodeTriples;
      assert |Split(ThingStatusTopic(gw, f.id), '/')| > 7;
    }
  }

  lemma {:induction false} ThingsMeaning(gw: string, fs: seq<Fact>)
    ensures DecodeAll(ThingMessages(gw, fs)) == Some(fs) <==> fs == [] || ('/' !in gw && FactIdsLack(fs, '/'))
  {
    if fs == [] {
      NoThings(gw);
    } else {
      var n := |fs| - 1;
      assert FactIdsLack(fs, '/') <==> FactIdsLack(fs[..n], '/') && '/' !in fs[n].id;
      assert n == 0 ==> FactIdsLack(fs[..n], '/');
      hide *;
      ThingsMeaning(gw, fs[..n]);
      ThingMeaning(gw, fs[n]);
      ThingMessagesLast(gw, fs);
      DecodeAllAppend(ThingMessages(gw, fs[..n]), ThingMessage(gw, fs[n]));
      if DecodeAll(ThingMessages(gw, fs[..n])).Some? {
        LastOf(DecodeAll(ThingMessages(gw, fs[..n])).value, fs);
      }
    }
  }

  lemma {:induction false} LastOf(gs: seq<Fact>, fs: seq<Fact>)
    requires fs != []
    ensures gs + [fs[|fs| - 1]] == fs <==> gs == fs[..|fs| - 1]
  {
    assert (gs + [fs[|fs| - 1]])[..|gs|] == gs;
  }

  lemma {:induction false} NoThings(gw: string)
    ensures DecodeAll(ThingMessages(gw, [])) == Some([])
  {
  }

  lemma {:induction false} ThingMessagesLast(gw: string, fs: seq<Fact>)
    requires fs != []
    ensures ThingMessages(gw, fs) == ThingMessages(gw, fs[..|fs| - 1]) + [ThingMessage(gw, fs[|fs| - 1])]
  {
  }

  lemma {:induction false} DecodeAllAppend(ms: seq<Message>, m: Message)
    ensures DecodeAll(ms + [m]) ==
            if DecodeAll(ms).None? || DecodeStatus(m).None? then None
            else Some(DecodeAll(ms).value + DecodeStatus(m).value)
  {
    assert (ms + [m])[..|ms + [m]| - 1] == ms;
  }

  ghost predicate FactIdsLack(fs: seq<Fact>, c: char) {
    forall i :: 0 <= i < |fs| ==> c !in fs[i].id
  }

  ghost predicate ThingIdsLack(ts: seq<Thing>, c: char) {
    forall i :: 0 <= i < |ts| && ts[i].id != null ==> c !in ts[i].id.text
  }

  lemma {:induction false} FactsLack(ts: seq<Thing>, now: uint64, c: char)
    ensures FactIdsLack(Facts(ts, now), c) <==> ThingIdsLack(ts, c)
  {
    if ts == [] {
    } else {
      var n := |ts| - 1;
      var init := Facts(ts[..n], now);
      FactsLack(ts[..n], now, c);
      assert ThingIdsLack(ts, c) <==> ThingIdsLack(ts[..n], c) && (ts[n].id != null ==> c !in ts[n].id.text);
      if ts[n].id != null {
        assert (init + [FactOf(ts[n], now)])[|init|].id == ts[n].id.text;
        assert forall i :: 0 <= i < |init| ==> (init + [FactOf(ts[n], now)])[i] == init[i];
      }
    }
  }

  lemma {:induction false} DecodeOne(m: Message)
    ensures DecodeAll([m]) == DecodeStatus(m)
  {
    assert [m][..0] == [] && forall fs: seq<Fact> :: [] + fs == fs;
  }

  /** What the messages can carry. One combined message: no slash in the gateway's id, no comma in
      the ids of the other entries. A message for each thing: no slash in any id. */
  ghost predicate StatusCarried(gw: string, ts: seq<Thing>) {
    var g := GatewayIndex(ts, gw);
    if g < |ts| then '/' !in gw && ThingIdsLack(ts[..g] + ts[g + 1..], ',')
    else (forall i :: 0 <= i < |ts| ==> ts[i].id == null) || ('/' !in gw && ThingIdsLack(ts, '/'))
  }

  lemma {:induction false} FactsEmpty(ts: seq<Thing>, now: uint64)
    ensures Facts(ts, now) == [] <==> forall i :: 0 <= i < |ts| ==> ts[i].id == null
  {
    if ts == [] {
    } else {
      FactsEmpty(ts[..|ts| - 1], now);
    }
  }

  /** Decoding everything a status publish sends gives back the facts in publishing order, if and
      only if the messages can carry them. */
  lemma {:induction false} StatusMeaning(gw: string, ts: seq<Thing>, now: uint64)
    ensures DecodeAll(StatusMessages(gw, ts, now)) == Some(OrderedFacts(gw, ts, now)) <==> StatusCarried(gw, ts)
  {
    var g, fs := GatewayIndex(ts, gw), OrderedFacts(gw, ts, now);
    if g == |ts| {
      FactsEmpty(ts, now);
      FactsLack(ts, now, '/');
      ThingsMeaning(gw, fs);
      hide ThingMessages, DecodeAll;
    } else {
      var rest := ts[..g] + ts[g + 1..];
      FactsLack(rest, now, ',');
      assert fs[1..] == Facts(rest, now);
      CombinedMeaning(gw, fs);
      DecodeOne(Message(GatewayStatusTopic(gw), CombinedText(fs)));
      hide CombinedText, DecodeAll, DecodeStatus;
    }
  }

  lemma {:induction false} FactsConcat(a: seq<Thing>, b: seq<Thing>, now: uint64)
    ensures Facts(a + b, now) == Facts(a, now) + Facts(b, now)
  {
    if b == [] {
      assert a + b == a;
    } else {
      FactsConcat(a, b[..|b| - 1], now);
      assert (a + b)[..|a + b| - 1] == a + b[..|b| - 1];
    }
  }

  lemma {:induction false} MovedFirst(a: seq<Fact>, f: Fact, b: seq<Fact>)
    ensures multiset([f] + (a + b)) == multiset(a + ([f] + b))
  {
  }

  /** The facts with and without one entry. */
  lemma {:induction false} FactsAround(ts: seq<Thing>, g: nat, now: uint64)
    requires g < |ts| && ts[g].id != null
    ensures var a, b := Facts(ts[..g], now), Facts(ts[g + 1..], now);
            && Facts(ts, now) == a + ([FactOf(ts[g], now)] + b)
            && Facts(ts[..g] + ts[g + 1..], now) == a + b
  {
    var one := [ts[g]];
    assert one[..0] == [] && Facts(one, now) == [] + [FactOf(ts[g], now)];
    hide Facts, FactOf;
    assert ts == ts[..g] + (one + ts[g + 1..]);
    FactsConcat(ts[..g], one + ts[g + 1..], now);
    FactsConcat(one, ts[g + 1..], now);
    FactsConcat(ts[..g], ts[g + 1..], now);
  }

  lemma {:induction false} OrderedAlone(gw: string, ts: seq<Thing>, now: uint64)
    requires GatewayIndex(ts, gw) == |ts|
    ensures OrderedFacts(gw, ts, now) == Facts(ts, now)
  {
    hide Facts, FactOf, GatewayIndex;
  }

  lemma {:induction false} OrderedByGateway(gw: string, ts: seq<Thing>, now: uint64)
    requires GatewayIndex(ts, gw) < |ts|
    ensures var g := GatewayIndex(ts, gw);
            && ts[g].id != null
            && OrderedFacts(gw, ts, now) == [FactOf(ts[g], now)] + Facts(ts[..g] + ts[g + 1..], now)
  {
    hide Facts, FactOf, GatewayIndex;
  }

  /** Conservation: reordering for the gateway neither loses, repeats nor alters a fact. */
  lemma {:induction false} StatusConservation(gw: string, ts: seq<Thing>, now: uint64)
    ensures multiset(OrderedFacts(gw, ts, now)) == multiset(Facts(ts, now))
  {
    hide *;
    var g := GatewayIndex(ts, gw);
    if g == |ts| {
      OrderedAlone(gw, ts, now);
    } else {
      OrderedByGateway(gw, ts, now);
      FactsAround(ts, g, now);
      MovedFirst(Facts(ts[..g], now), FactOf(ts[g], now), Facts(ts[g + 1..], now));
    }
  }

  lemma {:induction false} FactsPrefix(ts: seq<Thing>, i: nat, now: uint64)
    requires i <= |ts|
    ensures Facts(ts[..i], now) <= Facts(ts, now)
  {
    if i < |ts| {
      FactsPrefix(ts[..|ts| - 1], i, now);
      assert ts[..|ts| - 1][..i] == ts[..i];
    } else {
      assert ts[..i] == ts;
    }
  }

  /** A thing with an id has its fact among those published. */
  lemma {:induction false} FactAt(ts: seq<Thing>, i: nat, now: uint64)
    requires i < |ts| && ts[i].id != null
    ensures Facts(ts[..i + 1], now) == Facts(ts[..i], now) + [FactOf(ts[i], now)]
    ensures var n := |Facts(ts[..i], now)|; n < |Facts(ts, now)| && Facts(ts, now)[n] == FactOf(ts[i], now)
  {
    var fs, f := Facts(ts[..i], now), FactOf(ts[i], now);
    assert ts[..i + 1] == ts[..i] + [ts[i]];
    FactsAppend(ts[..i], ts[i], now);
    FactsPrefix(ts, i + 1, now);
    hide Facts, FactOf;
    assert Facts(ts, now)[|fs|] == (fs + [f])[|fs|];
  }

  lemma {:induction false} FirstGateway(ts: seq<Thing>, gw: string) returns (g: nat)
    requires exists i :: 0 <= i < |ts| && ts[i].id != null && ts[i].id.text == gw
    ensures g < |ts| && ts[g].id != null && ts[g].id.text == gw
    ensures forall i :: 0 <= i < g ==> ts[i].id == null || ts[i].id.text != gw
  {
    g := GatewayIndex(ts, gw);
    var i :| 0 <= i < |ts| && ts[i].id != null && ts[i].id.text == gw;
    assert IsGateway(ts[i], gw);
    assert forall k :: 0 <= k < g ==> !IsGateway(ts[k], gw);
  }

  lemma {:induction false} ThingText(gw: string, f: Fact)
    ensures ThingMessage(gw, f) ==
            Message("v/a/g/" + gw + "/s/" + f.id + "/status",
                    (if f.on then "on" else "off") + "," + Decimal(Signed64(f.until)))
  {
    hide Decimal, Signed64;
  }

  lemma {:induction false} ThingMessageAt(gw: string, fs: seq<Fact>, i: nat)
    requires i < |fs|
    ensures ThingMessages(gw, fs)[i] == ThingMessage(gw, fs[i])
  {
    hide ThingMessage;
    if i < |fs| - 1 {
      ThingMessageAt(gw, fs[..|fs| - 1], i);
    }
  }

  /** One fact for each entry with an id, and no more. */
  lemma {:induction false} FactsCount(ts: seq<Thing>, now: uint64)
    ensures |Facts(ts, now)| == |set i | 0 <= i < |ts| && ts[i].id != null|
  {
    if ts == [] {
    } else {
      var n := |ts| - 1;
      FactsCount(ts[..n], now);
      var before := set i | 0 <= i < n && ts[..n][i].id != null;
      assert (set i | 0 <= i < |ts| && ts[i].id != null) == before + if ts[n].id != null then {n} else {};
    }
  }

  /** A status publish with no entry under the gateway's id: each thing's fact under its own topic. */
  lemma {:induction false} SplitRoute(gw: string, ts: seq<Thing>, now: uint64)
    requires forall i :: 0 <= i < |ts| ==> ts[i].id == null || ts[i].id.text != gw
    ensures var ms, fs := StatusMessages(gw, ts, now), Facts(ts, now);
            && OrderedFacts(gw, ts, now) == fs && |ms| == |fs|
            && forall i :: 0 <= i < |fs| ==>
                 ms[i] == Message("v/a/g/" + gw + "/s/" + fs[i].id + "/status",
                                  (if fs[i].on then "on" else "off") + "," + Decimal(Signed64(fs[i].until)))
  {
    GatewayPlace(ts, gw, |ts|);
    var fs := Facts(ts, now);
    hide Facts, Decimal, ThingMessages, ThingMessage, Signed64;
    forall i | 0 <= i < |fs|
      ensures ThingMessages(gw, fs)[i] ==
              Message("v/a/g/" + gw + "/s/" + fs[i].id + "/status",
                      (if fs[i].on then "on" else "off") + "," + Decimal(Signed64(fs[i].until)))
    {
      ThingMessageAt(gw, fs, i);
      ThingText(gw, fs[i]);
    }
  }

  /** With such entries: the first one, and then all the others in order, in one message. */
  lemma {:induction false} CombinedRoute(gw: string, ts: seq<Thing>, g: nat, now: uint64)
    requires g < |ts| && ts[g].id != null && ts[g].id.text == gw
    requires forall i :: 0 <= i < g ==> ts[i].id == null || ts[i].id.text != gw
    ensures OrderedFacts(gw, ts, now) == [FactOf(ts[g], now)] + (Facts(ts[..g], now) + Facts(ts[g + 1..], now))
    ensures |StatusMessages(gw, ts, now)| == 1
    ensures StatusMessages(gw, ts, now)[0].topic == "v/a/g/" + gw + "/status"
  {
    hide *;
    GatewayPlace(ts, gw, g);
    FactsAround(ts, g, now);
    OrderedByGateway(gw, ts, now);
    CombinedMessage(gw, ts, now);
  }

  lemma {:induction false} CombinedMessage(gw: string, ts: seq<Thing>, now: uint64)
    requires GatewayIndex(ts, gw) < |ts|
    ensures |StatusMessages(gw, ts, now)| == 1
    ensures StatusMessages(gw, ts, now)[0].topic == "v/a/g/" + gw + "/status"
  {
    hide OrderedFacts, CombinedText, GatewayIndex, ThingMessages;
  }

  /** The text of the gateway's status and that of two more things. */
  lemma {:induction false} ThreeThings(f: Fact, g: Fact, h: Fact)
    ensures CombinedText([f, g, h]) ==
            (if f.on then "on" else "off") + "," + Decimal(Signed64(f.until))
            + ("," + g.id + "," + (if g.on then "on" else "off") + "," + Decimal(Signed64(g.until)))
            + ("," + h.id + "," + (if h.on then "on" else "off") + "," + Decimal(Signed64(h.until)))
  {
    CombinedTextStart(f);
    CombinedTextAppend([f], g);
    CombinedTextAppend([f, g], h);
    assert [f] + [g] == [f, g] && [f, g] + [h] == [f, g, h];
    hide CombinedText, Decimal;
  }

  /** A slash in an id is enough when the gateway is not among the things. */
  lemma {:induction false} SlashInIdFails(gw: string, id: CString, now: uint64)
    requires id.text == "a/b" && gw != "a/b"
    ensures var ts := [Thing(id, true, 0)]; DecodeAll(StatusMessages(gw, ts, now)) != Some(OrderedFacts(gw, ts, now))
  {
    var ts := [Thing(id, true, 0)];
    assert !IsGateway(ts[0], gw) && GatewayIndex(ts, gw) == 1;
    assert ts[0].id != null && '/' in ts[0].id.text;
    StatusMeaning(gw, ts, now);
    hide DecodeAll, StatusMessages, OrderedFacts;
  }
}

/** The connection as a state machine: every callback and API call is one step, and what it
    does to the outside world is appended to a trace. */
module Sessions {
  import opened Text
  import opened Grouping
  import opened Telemetry
  import opened Status
  import opened DeviceManagement

  datatype State = Initialized | Connected | Disconnected

  /** What the user set with `mqtt_callback_set`. */
  datatype Callbacks = Callbacks(connected: bool, disconnected: bool, ops: Ops)

  datatype Kind = Presence | Data | Answer

  datatype Entry =
    | LinkUp(code: int)
    | LinkDown(code: int)
    | Subscribe(topic: string)
    | Unsubscribe(topic: string)
    | Publish(kind: Kind, message: Message)
    | Disconnect
    | LoopStop
    | UserConnected(error: int)
    | UserDisconnected(error: int)
    | UserCall(call: Invocation)

  datatype Event =
    | CallbackSet(callbacks: Callbacks)
    | OnConnect(code: int)
    | OnDisconnect(code: int)
    | OnMessage(request: Option<Request>, verdict: Verdict)
    | ValueCall(vs: seq<Value>)
    | StatusCall(ts: seq<Thing>)
    | DisconnectCall

  /** `callbacks` is None until the user sets them; `ticks` counts the clock readings. */
  datatype Session = Session(state: State, callbacks: Option<Callbacks>, ticks: nat, trace: seq<Entry>)

  /** `mqtt_init`, when the clock has been read `ticks` times. */
  function Fresh(ticks: nat): Session {
    Session(Initialized, None, ticks, [])
  }

  function RequestTopic(gw: string): string { "v/a/g/" + gw + "/req" }

  function ResponseTopic(gw: string): string { "v/a/g/" + gw + "/res" }

  function PresenceMessage(gw: string, on: bool): Message {
    Message("v/a/g/" + gw + "/mqtt/status", OnOff(on))
  }

  /** The CONNACK codes of section 3.2.2.3 of MQTT Version 3.1.1, as `enum thingplus_error`. */
  function ConnectError(code: int): int {
    if code == 0 then 0
    else if code == 1 then -7
    else if code == 2 then -3
    else if code == 3 then -4
    else if code == 4 then -3
    else if code == 5 then -8
    else -99
  }

  function Published(kind: Kind, ms: seq<Message>): (es: seq<Entry>)
    ensures |es| == |ms| && forall i :: 0 <= i < |ms| ==> es[i] == Publish(kind, ms[i])
  {
    if ms == [] then [] else Published(kind, ms[..|ms| - 1]) + [Publish(kind, ms[|ms| - 1])]
  }

  function ConnectEntries(gw: string, code: int, callbacks: Option<Callbacks>): seq<Entry> {
    [LinkUp(code)]
    + (if code == 0 then [Subscribe(RequestTopic(gw)), Publish(Presence, PresenceMessage(gw, true))] else [])
    + (if callbacks.Some? && callbacks.value.connected then [UserConnected(ConnectError(code))] else [])
  }

  function DisconnectEntries(code: int, callbacks: Option<Callbacks>): seq<Entry> {
    [LinkDown(code)]
    + if callbacks.Some? && callbacks.value.disconnected then [UserDisconnected(if code != 0 then -10 else 0)] else []
  }

  function MessageEntries(gw: string, request: Option<Request>, verdict: Verdict, callbacks: Option<Callbacks>)
    : seq<Entry>
  {
    if callbacks.None? || request.None? || request.value.id.None? then []
    else
      var calls := Calls(callbacks.value.ops, request.value);
      (if calls == [] then [] else [UserCall(calls[0])])
      + [Publish(Answer, Message(ResponseTopic(gw), ReplyText(ReplyTo(callbacks.value.ops, request.value, verdict))))]
  }

  function HangUpEntries(gw: string, state: State): seq<Entry> {
    (if state != Initialized then [Unsubscribe(RequestTopic(gw))] else [])
    + (if state == Connected then [Publish(Presence, PresenceMessage(gw, false))] else [])
    + [Disconnect, LoopStop]
  }

  /** How often a value publish reads the clock. */
  function ValueReads(vs: seq<Value>): nat
    requires vs != []
  {
    if SinglePointer(vs) then Unstamped(NonNull(vs)) else UnstampedGroups(GroupBy(vs))
  }

  /** On either route the clock is read once for each entry with an id and without a time. */
  lemma {:induction false} ClockReads(vs: seq<Value>)
    requires vs != []
    ensures ValueReads(vs) == |Timeless(vs)|
  {
    UnstampedGrouped(vs);
    UnstampedCount(vs);
    hide Unstamped, UnstampedGroups, GroupBy, NonNull, Timeless;
  }

  /** What a step does to the outside world. */
  function Appended(gw: string, clock: Clock, s: Session, e: Event): seq<Entry> {
    match e
    case CallbackSet(_) => []
    case OnConnect(code) => ConnectEntries(gw, code, s.callbacks)
    case OnDisconnect(code) => DisconnectEntries(code, s.callbacks)
    case OnMessage(request, verdict) => MessageEntries(gw, request, verdict, s.callbacks)
    case ValueCall(vs) =>
      if s.state != Connected || !SomeId(vs) then [] else [Publish(Data, ValueMessage(gw, vs, clock, s.ticks))]
    case StatusCall(ts) =>
      if s.state != Connected || ts == [] then [] else Published(Data, StatusMessages(gw, ts, clock(s.ticks)))
    case DisconnectCall => HangUpEntries(gw, s.state)
  }

  /** How often a step reads the clock. */
  function Reads(s: Session, e: Event): nat {
    match e
    case ValueCall(vs) => if s.state != Connected || !SomeId(vs) then 0 else ValueReads(vs)
    case StatusCall(ts) => if s.state != Connected || ts == [] then 0 else 1
    case _ => 0
  }

  function Step(gw: string, clock: Clock, s: Session, e: Event): Session {
    Session(
      match e
      case OnConnect(code) => if code == 0 then Connected else s.state
      case OnDisconnect(_) => Disconnected
      case _ => s.state,
      if e.CallbackSet? then Some(e.callbacks) else s.callbacks,
      s.ticks + Reads(s, e),
      s.trace + Appended(gw, clock, s, e))
  }

  /** The session after a run of events, the clock having been read `from` times before it. */
  function Run(gw: string, clock: Clock, from: nat, es: seq<Event>): Session {
    if es == [] then Fresh(from) else Step(gw, clock, Run(gw, clock, from, es[..|es| - 1]), es[|es| - 1])
  }

  lemma {:induction false} RunAppend(gw: string, clock: Clock, from: nat, es: seq<Event>, e: Event)
    ensures Run(gw, clock, from, es + [e]) == Step(gw, clock, Run(gw, clock, from, es), e)
  {
    assert (es + [e])[..|es|] == es;
    hide Step;
  }

  // ---------------------------------------------------------------- laws of every run

  /** The latest link event: None, up or down. */
  function LastLink(t: seq<Entry>): Option<bool> {
    if t == [] then None
    else
      var e := t[|t| - 1];
      if e == LinkUp(0) then Some(true)
      else if e.LinkDown? then Some(false)
      else LastLink(t[..|t| - 1])
  }

  function StateOf(link: Option<bool>): State {
    if link == None then Initialized else if link == Some(true) then Connected else Disconnected
  }

  predicate IsLink(e: Entry) {
    e == LinkUp(0) || e.LinkDown?
  }

  lemma {:induction false} LastLinkConcat(a: seq<Entry>, b: seq<Entry>)
    requires forall i :: 0 <= i < |b| ==> !IsLink(b[i])
    ensures LastLink(a + b) == LastLink(a)
  {
    if b == [] {
      assert a + b == a;
    } else {
      LastLinkConcat(a, b[..|b| - 1]);
      assert (a + b)[..|a + b| - 1] == a + b[..|b| - 1];
    }
  }

  lemma {:induction false} LastLinkHead(a: seq<Entry>, e: Entry, b: seq<Entry>)
    requires IsLink(e) && forall i :: 0 <= i < |b| ==> !IsLink(b[i])
    ensures LastLink(a + ([e] + b)) == Some(e == LinkUp(0))
  {
    assert a + ([e] + b) == (a + [e]) + b;
    LastLinkConcat(a + [e], b);
    assert (a + [e])[..|a|] == a;
  }

  lemma {:induction false} StepAppends(gw: string, clock: Clock, s: Session, e: Event)
    ensures !(e.OnConnect? && e.code == 0) && !e.OnDisconnect? ==>
              forall i :: 0 <= i < |Appended(gw, clock, s, e)| ==> !IsLink(Appended(gw, clock, s, e)[i])
  {
  }

  /** At `i`, the link is up and was announced: since a successful connect callback, followed at
      once by the subscribe and the `on` publish, no disconnect callback has come. */
  ghost predicate Announced(gw: string, t: seq<Entry>, i: nat) {
    exists j: nat :: UpSince(gw, t, i, j)
  }

  ghost predicate UpSince(gw: string, t: seq<Entry>, i: nat, j: nat) {
    && j + 2 < i <= |t|
    && t[j] == LinkUp(0)
    && t[j + 1] == Subscribe(RequestTopic(gw))
    && t[j + 2] == Publish(Presence, Message("v/a/g/" + gw + "/mqtt/status", "on"))
    && forall m :: j < m < i ==> !t[m].LinkDown?
  }

  /** A data publish, or the `off` that ends a session. */
  predicate NeedsLink(gw: string, e: Entry) {
    && e.Publish?
    && (e.kind == Data || (e.kind == Presence && e.message == Message("v/a/g/" + gw + "/mqtt/status", "off")))
  }

  ghost predicate Sound(gw: string, s: Session) {
    && s.state == StateOf(LastLink(s.trace))
    && (s.state == Connected ==> Announced(gw, s.trace, |s.trace|))
    && (forall i :: 0 <= i < |s.trace| && NeedsLink(gw, s.trace[i]) ==> Announced(gw, s.trace, i))
  }

  lemma {:induction false} AnnouncedLater(gw: string, t: seq<Entry>, u: seq<Entry>, i: nat, k: nat)
    requires Announced(gw, t, i) && i <= |t| && i <= k <= |t + u|
    requires forall m :: i <= m < k ==> !(t + u)[m].LinkDown?
    ensures Announced(gw, t + u, k)
  {
    var j: nat :| UpSince(gw, t, i, j);
    assert UpSince(gw, t + u, k, j);
  }

  lemma {:induction false} StepState(gw: string, clock: Clock, s: Session, e: Event)
    requires s.state == StateOf(LastLink(s.trace))
    ensures Step(gw, clock, s, e).state == StateOf(LastLink(Step(gw, clock, s, e).trace))
  {
    StepAppends(gw, clock, s, e);
    var added := Appended(gw, clock, s, e);
    if e.OnConnect? && e.code == 0 {
      LastLinkHead(s.trace, added[0], added[1..]);
      assert added == [added[0]] + added[1..];
    } else if e.OnDisconnect? {
      LastLinkHead(s.trace, added[0], added[1..]);
      assert added == [added[0]] + added[1..];
    } else {
      LastLinkConcat(s.trace, added);
    }
  }

  lemma {:induction false} StepConnected(gw: string, clock: Clock, s: Session, e: Event)
    requires s.state == Connected ==> Announced(gw, s.trace, |s.trace|)
    ensures var s' := Step(gw, clock, s, e); s'.state == Connected ==> Announced(gw, s'.trace, |s'.trace|)
  {
    StepAppends(gw, clock, s, e);
    var added, s' := Appended(gw, clock, s, e), Step(gw, clock, s, e);
    if s'.state == Connected {
      if e.OnConnect? && e.code == 0 {
        var j := |s.trace|;
        assert s'.trace[j] == added[0] && s'.trace[j + 1] == added[1] && s'.trace[j + 2] == added[2];
        assert UpSince(gw, s'.trace, |s'.trace|, j);
      } else {
        AnnouncedLater(gw, s.trace, added, |s.trace|, |s'.trace|);
      }
    }
  }

  lemma {:induction false} AddedNeedsLink(gw: string, clock: Clock, s: Session, e: Event, i: nat)
    requires i < |Appended(gw, clock, s, e)| && NeedsLink(gw, Appended(gw, clock, s, e)[i])
    ensures s.state == Connected
    ensures forall m :: 0 <= m < i ==> !Appended(gw, clock, s, e)[m].LinkDown?
  {
    StepAppends(gw, clock, s, e);
    assert OnOff(true) != OnOff(false);
  }

  lemma {:induction false} StepPublishes(gw: string, clock: Clock, s: Session, e: Event, i: nat)
    requires Sound(gw, s) && i < |Step(gw, clock, s, e).trace| && NeedsLink(gw, Step(gw, clock, s, e).trace[i])
    ensures Announced(gw, Step(gw, clock, s, e).trace, i)
  {
    StepAppends(gw, clock, s, e);
    var added := Appended(gw, clock, s, e);
    if i < |s.trace| {
      AnnouncedLater(gw, s.trace, added, i, i);
    } else {
      AddedNeedsLink(gw, clock, s, e, i - |s.trace|);
      hide Appended, Step;
      AnnouncedLater(gw, s.trace, added, |s.trace|, i);
    }
  }

  /** Safety of every run: the state says whether the latest link event was a connect; every
      data publish, and every `off`, happens while a connect announced on the wire is in force. */
  lemma {:induction false} RunSound(gw: string, clock: Clock, from: nat, es: seq<Event>)
    ensures Sound(gw, Run(gw, clock, from, es))
  {
    if es == [] {
    } else {
      var s, e := Run(gw, clock, from, es[..|es| - 1]), es[|es| - 1];
      RunSound(gw, clock, from, es[..|es| - 1]);
      StepState(gw, clock, s, e);
      StepConnected(gw, clock, s, e);
      forall i | 0 <= i < |Step(gw, clock, s, e).trace| && NeedsLink(gw, Step(gw, clock, s, e).trace[i])
        ensures Announced(gw, Step(gw, clock, s, e).trace, i)
      {
        StepPublishes(gw, clock, s, e, i);
      }
      hide Step;
    }
  }

  /** Once left, INITIALIZED never comes back. */
  lemma {:induction false} NeverInitializedAgain(gw: string, clock: Clock, from: nat, es: seq<Event>, n: nat)
    requires n <= |es| && Run(gw, clock, from, es[..n]).state != Initialized
    ensures Run(gw, clock, from, es).state != Initialized
  {
    if n == |es| {
      assert es[..n] == es;
    } else {
      assert es[..|es| - 1][..n] == es[..n];
      NeverInitializedAgain(gw, clock, from, es[..|es| - 1], n);
    }
  }

  // ---------------------------------------------------------------- what decides state and callbacks

  /** Event `n` is a successful connect, and no disconnect came after it. */
  ghost predicate UpFrom(es: seq<Event>, n: nat) {
    n < |es| && es[n] == OnConnect(0) && forall m :: n < m < |es| ==> !es[m].OnDisconnect?
  }

  lemma {:induction false} RunFields(gw: string, clock: Clock, from: nat, es: seq<Event>)
    requires es != []
    ensures var before, after, e := Run(gw, clock, from, es[..|es| - 1]), Run(gw, clock, from, es), es[|es| - 1];
            && after.state == (if e == OnConnect(0) then Connected else if e.OnDisconnect? then Disconnected
                               else before.state)
            && after.callbacks == (if e.CallbackSet? then Some(e.callbacks) else before.callbacks)
  {
    hide Appended, Reads;
  }

  lemma {:induction false} UpFromLast(es: seq<Event>, n: nat)
    requires es != []
    ensures UpFrom(es, n) <==>
            || (n == |es| - 1 && es[n] == OnConnect(0))
            || (UpFrom(es[..|es| - 1], n) && !es[|es| - 1].OnDisconnect?)
  {
    var init := es[..|es| - 1];
    if UpFrom(init, n) && !es[|es| - 1].OnDisconnect? {
      assert forall m :: n < m < |es| ==> es[m] == if m < |init| then init[m] else es[|es| - 1];
    }
    if UpFrom(es, n) && n < |init| {
      assert forall m :: n < m < |init| ==> init[m] == es[m];
    }
  }

  lemma {:induction false} ConnectedByEvents(gw: string, clock: Clock, from: nat, es: seq<Event>)
    ensures Run(gw, clock, from, es).state == Connected <==> exists n: nat :: UpFrom(es, n)
  {
    if es == [] {
    } else {
      var init := es[..|es| - 1];
      ConnectedByEvents(gw, clock, from, init);
      RunFields(gw, clock, from, es);
      hide Run, UpFrom;
      UpFromLast(es, |init|);
      if n: nat :| UpFrom(init, n) {
        UpFromLast(es, n);
      }
      if n: nat :| UpFrom(es, n) {
        UpFromLast(es, n);
      }
    }
  }

  lemma {:induction false} LastEvent(es: seq<Event>, init: seq<Event>)
    requires es != [] && init == es[..|es| - 1]
    ensures forall e :: e in es <==> e in init || e == es[|es| - 1]
  {
  }

  lemma {:induction false} InitializedByEvents(gw: string, clock: Clock, from: nat, es: seq<Event>)
    ensures Run(gw, clock, from, es).state == Initialized <==>
            forall e :: e in es ==> e != OnConnect(0) && !e.OnDisconnect?
  {
    if es == [] {
    } else {
      RunFields(gw, clock, from, es);
      hide *;
      InitializedByEvents(gw, clock, from, es[..|es| - 1]);
      LastEvent(es, es[..|es| - 1]);
      assert es[|es| - 1] in es && forall e :: e in es[..|es| - 1] ==> e in es;
    }
  }

  /** The state in terms of the events alone: connected while a successful connect is the latest link
      event, initialized before any. */
  lemma {:induction false} StateByEvents(gw: string, clock: Clock, from: nat, es: seq<Event>)
    ensures Run(gw, clock, from, es).state == Connected <==> exists n: nat :: UpFrom(es, n)
    ensures Run(gw, clock, from, es).state == Initialized <==>
            forall e :: e in es ==> e != OnConnect(0) && !e.OnDisconnect?
  {
    ConnectedByEvents(gw, clock, from, es);
    InitializedByEvents(gw, clock, from, es);
    hide *;
  }

  /** The callbacks in force are those set last. */
  lemma {:induction false} LatestCallbacks(gw: string, clock: Clock, from: nat, es: seq<Event>, n: nat)
    requires n < |es| && es[n].CallbackSet? && forall m :: n < m < |es| ==> !es[m].CallbackSet?
    ensures Run(gw, clock, from, es).callbacks == Some(es[n].callbacks)
  {
    RunFields(gw, clock, from, es);
    if n < |es| - 1 {
      LatestCallbacks(gw, clock, from, es[..|es| - 1], n);
    }
    hide Run;
  }

  lemma {:induction false} NoCallbacks(gw: string, clock: Clock, from: nat, es: seq<Event>)
    requires forall n :: 0 <= n < |es| ==> !es[n].CallbackSet?
    ensures Run(gw, clock, from, es).callbacks == None
  {
    if es == [] {
    } else {
      RunFields(gw, clock, from, es);
      NoCallbacks(gw, clock, from, es[..|es| - 1]);
      hide Run;
    }
  }

  /** A connect callback: on success the subscription and `on`, and last, whatever the code, the
      user's callback with the error of that code. */
  lemma {:induction false} ConnectSays(gw: string, clock: Clock, s: Session, code: int)
    ensures var es := Appended(gw, clock, s, OnConnect(code));
            var told := s.callbacks.Some? && s.callbacks.value.connected;
            var link := if code != 0 then [LinkUp(code)]
                        else [LinkUp(0), Subscribe("v/a/g/" + gw + "/req"),
                              Publish(Presence, Message("v/a/g/" + gw + "/mqtt/status", "on"))];
            && (!told ==> es == link)
            && (told ==>
                  && es != [] && es[..|es| - 1] == link && es[|es| - 1].UserConnected?
                  && var error := es[|es| - 1].error;
                  && (error == 0 <==> code == 0) && (error == -7 <==> code == 1)
                  && (error == -3 <==> code == 2 || code == 4) && (error == -4 <==> code == 3)
                  && (error == -8 <==> code == 5) && (error == -99 <==> code < 0 || code > 5))
  {
  }

  /** A disconnect callback: the user's, with an error exactly when it was not asked for. */
  lemma {:induction false} DisconnectSays(gw: string, clock: Clock, s: Session, code: int)
    ensures var es := Appended(gw, clock, s, OnDisconnect(code));
            es == [LinkDown(code)] + if s.callbacks.None? || !s.callbacks.value.disconnected then []
                                     else if code == 0 then [UserDisconnected(0)]
                                     else [UserDisconnected(-10)]
  {
  }

  lemma {:induction false} HangUpStep(gw: string, clock: Clock, s: Session)
    ensures var t := Step(gw, clock, s, DisconnectCall);
            && t == s.(trace := t.trace)
            && t.trace == s.trace +
                          match s.state
                          case Connected =>
                            [Unsubscribe("v/a/g/" + gw + "/req"),
                             Publish(Presence, Message("v/a/g/" + gw + "/mqtt/status", "off")), Disconnect, LoopStop]
                          case Disconnected => [Unsubscribe("v/a/g/" + gw + "/req"), Disconnect, LoopStop]
                          case Initialized => [Disconnect, LoopStop]
  {
  }

  /** A disconnect call after any run: the subscription is given up once there was a link, and
      `off` is published exactly while there is one. */
  lemma {:induction false} HangUpSays(gw: string, clock: Clock, from: nat, es: seq<Event>)
    ensures var before := Run(gw, clock, from, es);
            var after := Run(gw, clock, from, es + [DisconnectCall]);
            && after == before.(trace := after.trace)
            && after.trace == before.trace +
                              if exists n: nat :: UpFrom(es, n) then
                                [Unsubscribe("v/a/g/" + gw + "/req"),
                                 Publish(Presence, Message("v/a/g/" + gw + "/mqtt/status", "off")),
                                 Disconnect, LoopStop]
                              else if exists e :: e in es && (e == OnConnect(0) || e.OnDisconnect?) then
                                [Unsubscribe("v/a/g/" + gw + "/req"), Disconnect, LoopStop]
                              else [Disconnect, LoopStop]
  {
    hide *;
    RunAppend(gw, clock, from, es, DisconnectCall);
    StateByEvents(gw, clock, from, es);
    HangUpStep(gw, clock, Run(gw, clock, from, es));
  }

  // ---------------------------------------------------------------- what the platform understands

  /** The platform's reading of a presence message. */
  function DecodePresence(m: Message): Option<(string, bool)> {
    var parts := Split(m.topic, '/');
    if |parts| != 6 || parts[..3] != ["v", "a", "g"] || parts[4..] != ["mqtt", "status"] then None
    else
      match DecodeOnOff(m.payload)
      case None => None
      case Some(on) => Some((parts[3], on))
  }

  /** What follows the gateway's id in a topic. */
  lemma {:induction false} GatewayTopicParts(gw: string, rest: string)
    ensures Split("v/a/g/" + gw + "/" + rest, '/') == ["v", "a", "g"] + Split(gw, '/') + Split(rest, '/')
  {
    assert "v/a/g/" + gw + "/" + rest == "v/a/g/" + (gw + ['/'] + rest);
    TopicPrefix(gw + ['/'] + rest);
    SplitConcat(gw, rest, '/');
    hide Split;
  }

  lemma {:induction false} PresenceParts(gw: string)
    ensures Split("v/a/g/" + gw + "/mqtt/status", '/') == ["v", "a", "g"] + Split(gw, '/') + ["mqtt", "status"]
  {
    hide Split;
    assert "/mqtt/status" == "/" + "mqtt/status" && "mqtt/status" == "mqtt" + ['/'] + "status";
    ConcatAssoc("v/a/g/" + gw, "/", "mqtt/status");
    GatewayTopicParts(gw, "mqtt/status");
    SplitAtSeparator("mqtt", "status", '/');
    SplitSingle("status", '/');
  }

  /** A presence message says what was meant exactly when the gateway's id has no slash. */
  lemma {:induction false} PresenceMeaning(gw: string, on: bool)
    ensures DecodePresence(PresenceMessage(gw, on)) == Some((gw, on)) <==> '/' !in gw
  {
    PresenceParts(gw);
    SplitSingle(gw, '/');
    hide Split;
    var parts := ["v", "a", "g"] + Split(gw, '/') + ["mqtt", "status"];
    if '/' !in gw {
      assert parts[3] == gw && parts[4..] == ["mqtt", "status"];
    }
  }

  /** The topics of requests and replies name the gateway exactly when its id has no slash. */
  lemma {:induction false} RequestTopicParts(gw: string)
    ensures Split(RequestTopic(gw), '/') == ["v", "a", "g", gw, "req"] <==> '/' !in gw
    ensures Split(ResponseTopic(gw), '/') == ["v", "a", "g", gw, "res"] <==> '/' !in gw
  {
    assert RequestTopic(gw) == "v/a/g/" + gw + "/" + "req" && ResponseTopic(gw) == "v/a/g/" + gw + "/" + "res";
    GatewayTopicParts(gw, "req");
    GatewayTopicParts(gw, "res");
    SplitSingle("req", '/');
    SplitSingle("res", '/');
    SplitSingle(gw, '/');
    hide Split;
  }

  /** The entry publishes this presence, and is read as it. */
  ghost predicate Says(gw: string, e: Entry, on: bool) {
    && e.Publish? && e.kind == Presence
    && e.message == Message("v/a/g/" + gw + "/mqtt/status", if on then "on" else "off")
    && ('/' !in gw ==> DecodePresence(e.message) == Some((gw, on)))
  }

  /** A successful connect is followed by the subscription and by `on`. */
  ghost predicate Announcing(gw: string, t: seq<Entry>, j: nat)
    requires j < |t|
  {
    t[j] == LinkUp(0) ==> j + 2 < |t| && t[j + 1] == Subscribe("v/a/g/" + gw + "/req") && Says(gw, t[j + 2], true)
  }

  /** A presence message is the `on` of a connect, or the `off` of a disconnect call. */
  ghost predicate Justified(gw: string, t: seq<Entry>, i: nat)
    requires i < |t|
  {
    t[i].Publish? && t[i].kind == Presence ==>
      || (i >= 2 && t[i - 2] == LinkUp(0) && t[i - 1] == Subscribe("v/a/g/" + gw + "/req") && Says(gw, t[i], true))
      || (i >= 1 && t[i - 1] == Unsubscribe("v/a/g/" + gw + "/req") && Says(gw, t[i], false))
  }

  ghost predicate PresenceKept(gw: string, t: seq<Entry>) {
    forall i :: 0 <= i < |t| ==> Announcing(gw, t, i) && Justified(gw, t, i)
  }

  lemma {:induction false} PresenceSays(gw: string, on: bool)
    ensures Says(gw, Publish(Presence, PresenceMessage(gw, on)), on)
  {
    PresenceMeaning(gw, on);
    hide DecodePresence;
  }

  lemma {:induction false} StepPresence(gw: string, clock: Clock, s: Session, e: Event)
    ensures PresenceKept(gw, Appended(gw, clock, s, e))
  {
    PresenceSays(gw, true);
    PresenceSays(gw, false);
    hide Says, ValueMessage, StatusMessages, ReplyText, ReplyTo, Calls, SomeId;
  }

  lemma {:induction false} PresenceConcat(gw: string, t: seq<Entry>, es: seq<Entry>)
    requires PresenceKept(gw, t) && PresenceKept(gw, es)
    ensures PresenceKept(gw, t + es)
  {
    hide Says;
    forall i | 0 <= i < |t + es| ensures Announcing(gw, t + es, i) && Justified(gw, t + es, i) {
      if i < |t| {
        assert Announcing(gw, t, i) && Justified(gw, t, i);
      } else {
        assert Announcing(gw, es, i - |t|) && Justified(gw, es, i - |t|);
      }
    }
  }

  /** Over every run: a successful connect is announced with `on` at once, and there is no other
      presence message but the `off` of a disconnect call. */
  lemma {:induction false} RunPresence(gw: string, clock: Clock, from: nat, es: seq<Event>)
    ensures PresenceKept(gw, Run(gw, clock, from, es).trace)
  {
    if es == [] {
    } else {
      var s, e := Run(gw, clock, from, es[..|es| - 1]), es[|es| - 1];
      RunPresence(gw, clock, from, es[..|es| - 1]);
      StepPresence(gw, clock, s, e);
      hide PresenceKept, Appended;
      PresenceConcat(gw, s.trace, Appended(gw, clock, s, e));
    }
  }

  /** The one message of a value publish goes to the sensor's topic when every id is NULL or the
      first entry's pointer, and to the gateway's otherwise. */
  lemma {:induction false} ValueCallTopic(gw: string, clock: Clock, s: Session, vs: seq<Value>)
    requires s.state == Connected && exists i :: 0 <= i < |vs| && vs[i].id != null
    ensures var es := Appended(gw, clock, s, ValueCall(vs));
            && |es| == 1 && es[0].Publish? && es[0].kind == Data
            && es[0].message.topic ==
               if forall i :: 0 <= i < |vs| ==> vs[i].id == null || vs[i].id == vs[0].id
               then "v/a/g/" + gw + "/s/" + vs[0].id.text
               else "v/a/g/" + gw
  {
    ValueTopic(gw, vs, clock, s.ticks);
    hide ValueMessage;
  }

  /** A status publish with the gateway among the things is one message on the gateway's status
      topic; without it, one message for each entry with an id, on that thing's topic. */
  lemma {:induction false} StatusCallTopics(gw: string, clock: Clock, s: Session, ts: seq<Thing>)
    requires s.state == Connected
    ensures var ms := Messages(Appended(gw, clock, s, StatusCall(ts)));
            if exists i :: 0 <= i < |ts| && ts[i].id != null && ts[i].id.text == gw
            then |ms| == 1 && ms[0].topic == "v/a/g/" + gw + "/status"
            else
              && |ms| == |set i | 0 <= i < |ts| && ts[i].id != null|
              && forall i :: 0 <= i < |ts| && ts[i].id != null ==>
                   && |Facts(ts[..i], clock(s.ticks))| < |ms|
                   && ms[|Facts(ts[..i], clock(s.ticks))|].topic == "v/a/g/" + gw + "/s/" + ts[i].id.text + "/status"
  {
    var now := clock(s.ticks);
    StatusCallMessages(gw, clock, s, ts);
    FactsCount(ts, now);
    hide Appended, Messages, StatusMessages, Facts, FactOf, OrderedFacts, Decimal, CombinedText;
    if exists i :: 0 <= i < |ts| && ts[i].id != null && ts[i].id.text == gw {
      var g := FirstGateway(ts, gw);
      CombinedRoute(gw, ts, g, now);
    } else {
      SplitRoute(gw, ts, now);
      forall i | 0 <= i < |ts| && ts[i].id != null
        ensures var n := |Facts(ts[..i], now)|; n < |Facts(ts, now)| && Facts(ts, now)[n].id == ts[i].id.text
      {
        FactAt(ts, i, now);
      }
    }
  }

  lemma {:induction false} ValueCallEntries(gw: string, clock: Clock, s: Session, vs: seq<Value>)
    requires s.state == Connected && SomeId(vs)
    ensures Appended(gw, clock, s, ValueCall(vs)) == [Publish(Data, ValueMessage(gw, vs, clock, s.ticks))]
  {
    hide ValueMessage, SomeId;
  }

  /** A value publish on a connected client: one message, read back as the grouped input if and
      only if its route can carry the input. */
  lemma {:induction false} ValueCallMeaning(gw: string, clock: Clock, s: Session, vs: seq<Value>)
    requires s.state == Connected && SomeId(vs)
    ensures var es := Appended(gw, clock, s, ValueCall(vs));
            && |es| == 1 && es[0].Publish? && es[0].kind == Data
            && (Decode(es[0].message) == Some((gw, StampGroups(GroupBy(vs), clock, s.ticks))) <==> Carried(gw, vs))
  {
    hide *;
    ValueCallEntries(gw, clock, s, vs);
    ValueMeaning(gw, vs, clock, s.ticks);
  }

  function Messages(es: seq<Entry>): seq<Message> {
    if es == [] then []
    else
      var init, e := Messages(es[..|es| - 1]), es[|es| - 1];
      if e.Publish? then init + [e.message] else init
  }

  lemma {:induction false} PublishedMessages(kind: Kind, ms: seq<Message>)
    ensures Messages(Published(kind, ms)) == ms
  {
    if ms == [] {
    } else {
      PublishedMessages(kind, ms[..|ms| - 1]);
      var es := Published(kind, ms);
      assert es[..|es| - 1] == Published(kind, ms[..|ms| - 1]);
    }
  }

  /** A status publish on a connected client: together its messages say exactly what the entries
      with an id say, the gateway first, if and only if they can carry it. */
  lemma {:induction false} StatusCallMeaning(gw: string, clock: Clock, s: Session, ts: seq<Thing>)
    requires s.state == Connected
    ensures var ms, fs := Messages(Appended(gw, clock, s, StatusCall(ts))), OrderedFacts(gw, ts, clock(s.ticks));
            && (DecodeAll(ms) == Some(fs) <==> StatusCarried(gw, ts))
            && multiset(fs) == multiset(Facts(ts, clock(s.ticks)))
  {
    hide *;
    StatusMeaning(gw, ts, clock(s.ticks));
    StatusConservation(gw, ts, clock(s.ticks));
    StatusCallMessages(gw, clock, s, ts);
  }

  lemma {:induction false} StatusCallMessages(gw: string, clock: Clock, s: Session, ts: seq<Thing>)
    requires s.state == Connected
    ensures Messages(Appended(gw, clock, s, StatusCall(ts))) == StatusMessages(gw, ts, clock(s.ticks))
  {
    hide *;
    PublishedMessages(Data, StatusMessages(gw, ts, clock(s.ticks)));
    StatusCallEntries(gw, clock, s, ts);
  }

  lemma {:induction false} StatusCallEntries(gw: string, clock: Clock, s: Session, ts: seq<Thing>)
    requires s.state == Connected
    ensures Appended(gw, clock, s, StatusCall(ts)) == Published(Data, StatusMessages(gw, ts, clock(s.ticks)))
  {
    assert StatusMessages(gw, [], clock(s.ticks)) == [];
    hide StatusMessages;
  }

  /** A request with an id, once the callbacks are set: at most one user callback, and then one
      reply on the response topic. It is read back with the request's id exactly when that id holds
      no quote, and then it is a result exactly when the callback ran and returned true. */
  lemma {:induction false} RequestMeaning(gw: string, clock: Clock, s: Session, request: Request, verdict: Verdict)
    requires s.callbacks.Some? && request.id.Some?
    ensures var es := Appended(gw, clock, s, OnMessage(Some(request), verdict));
            var calls := Calls(s.callbacks.value.ops, request);
            && |es| == |calls| + 1 <= 2 && (forall i :: 0 <= i < |calls| ==> es[i] == UserCall(calls[i]))
            && var answer := es[|es| - 1];
            && answer.Publish? && answer.kind == Answer && answer.message.topic == "v/a/g/" + gw + "/res"
            && var reply := DecodeReply(answer.message.payload);
            && (reply.Some? && reply.value.id == request.id.value <==> '"' !in request.id.value)
            && ('"' !in request.id.value ==> (reply.value.Result? <==> |es| == 2 && verdict.ok))
  {
    hide *;
    var ops := s.callbacks.value.ops;
    var text := ReplyText(ReplyTo(ops, request, verdict));
    RpcLaws(ops, request, verdict);
    ReplyMeaning(ReplyTo(ops, request, verdict));
    if DecodeReply(text).Some? {
      DecodedId(text);
    }
    RequestEntries(gw, clock, s, request, verdict);
  }

  /** Nothing is answered, and no callback runs, exactly without callbacks, without a request that
      parses, or without its id. */
  lemma {:induction false} NoAnswer(gw: string, clock: Clock, s: Session, request: Option<Request>, verdict: Verdict)
    ensures Appended(gw, clock, s, OnMessage(request, verdict)) == [] <==>
            s.callbacks.None? || request.None? || request.value.id.None?
  {
    hide ReplyText, ReplyTo, Calls;
  }

  lemma {:induction false} RequestEntries(gw: string, clock: Clock, s: Session, request: Request, verdict: Verdict)
    requires s.callbacks.Some? && request.id.Some?
    ensures var ops := s.callbacks.value.ops;
            var calls := Calls(ops, request);
            Appended(gw, clock, s, OnMessage(Some(request), verdict)) ==
            (if calls == [] then [] else [UserCall(calls[0])])
            + [Publish(Answer, Message("v/a/g/" + gw + "/res", ReplyText(ReplyTo(ops, request, verdict))))]
  {
    hide ReplyText, ReplyTo, Calls;
  }
}

/** Where the cache comes from: what the log of a client says the server answered. */
module Provenance {
  import opened Text
  import opened Ids
  import opened Drivers
  import opened Registry

  function Given<T>(list: Option<seq<T>>): seq<T> {
    if list.None? then [] else list.value
  }

  /** What is to be known after the requests in `log`, by their answers alone. A gateway reply
      replaces everything known about the gateway, a failed read of it all but the models; a reply
      without a number counts as number -1; and an accepted device adds its id. */
  function Said(log: seq<Request>): Cache {
    if log == [] then Cache(Gateway(-1, false, [], []), [])
    else
      var before := Said(log[..|log| - 1]);
      match log[|log| - 1]
      case ReadGateway(None) => before.(gateway := Gateway(0, false, [], []))
      case ReadGateway(Some(r)) =>
        before.(gateway := Gateway(if r.model.Some? then r.model.value else -1,
                                   r.autoCreate == Some("Y") || r.autoCreate == Some("y"),
                                   Given(r.devices), Given(r.sensors)))
      case ReadModels(_, models) => before.(models := if models.Some? then Given(models.value) else [])
      case PostDevice(reqId, _, true, _) =>
        before.(gateway := before.gateway.(devices := before.gateway.devices + [reqId]))
      case _ => before
  }

  /** The ids of the devices the server took. */
  function Accepted(log: seq<Request>): seq<string> {
    if log == [] then []
    else
      var before, r := Accepted(log[..|log| - 1]), log[|log| - 1];
      if r.PostDevice? && r.accepted then before + [r.reqId] else before
  }

  lemma {:induction false} SaidAppend(log: seq<Request>, r: Request)
    ensures (log + [r])[..|log + [r]| - 1] == log && (log + [r])[|log + [r]| - 1] == r
  {
  }

  /** What the last reply about the gateway says by itself. */
  ghost predicate Replied(g: Gateway, reply: Option<GatewayReply>, since: seq<string>) {
    && g.devices == (if reply.None? then [] else Given(reply.value.devices)) + since
    && g.sensors == (if reply.None? then [] else Given(reply.value.sensors))
    && (g.discoverable <==> reply.Some? && reply.value.autoCreate in {Some("Y"), Some("y")})
    && g.model == (if reply.None? then 0 else if reply.value.model.None? then -1 else reply.value.model.value)
  }

  lemma {:induction false} SaidStep(log: seq<Request>, reply: Option<GatewayReply>, since: seq<string>)
    requires log != [] && !log[|log| - 1].ReadGateway?
    requires Replied(Said(log[..|log| - 1]).gateway, reply, since)
    ensures var r := log[|log| - 1];
            Replied(Said(log).gateway, reply, if r.PostDevice? && r.accepted then since + [r.reqId] else since)
  {
    hide Given;
  }

  /** Since the last reply about the gateway: its list and then the ids accepted, its sensors, and
      open exactly when it said yes; after a failed read, nothing, and closed. */
  lemma {:induction false} SinceReply(log: seq<Request>, i: nat)
    requires i < |log| && log[i].ReadGateway?
    requires forall k :: i < k < |log| ==> !log[k].ReadGateway?
    ensures Replied(Said(log).gateway, log[i].gateway, Accepted(log[i + 1..]))
  {
    if i == |log| - 1 {
      assert log[i + 1..] == [];
    } else {
      var init, tail := log[..|log| - 1], log[i + 1..];
      assert tail[..|tail| - 1] == init[i + 1..] && tail[|tail| - 1] == log[|log| - 1];
      assert Accepted(tail) == if log[|log| - 1].PostDevice? && log[|log| - 1].accepted
                               then Accepted(init[i + 1..]) + [log[|log| - 1].reqId] else Accepted(init[i + 1..]);
      hide *;
      SinceReply(init, i);
      SaidStep(log, log[i].gateway, Accepted(init[i + 1..]));
    }
  }

  lemma {:induction false} YesFolds(s: string)
    ensures EqualFold("Y", s) <==> s == "Y" || s == "y"
  {
    assert Fold("Y") == ['y'];
    if EqualFold("Y", s) {
      assert Fold(s) == ['y'] && |s| == 1;
      assert Fold(s)[0] == FoldChar(s[0]);
      assert s == [s[0]];
    }
    if s == "y" {
      assert Fold(s) == ['y'];
    }
  }

  lemma {:induction false} ParsedAsSaid(r: GatewayReply, log: seq<Request>)
    ensures Said(log + [ReadGateway(Some(r))]) == Said(log).(gateway := ParseGateway(r))
    ensures Said(log + [ReadGateway(None)]) == Said(log).(gateway := ZEROED)
  {
    SaidAppend(log, ReadGateway(Some(r)));
    SaidAppend(log, ReadGateway(None));
    if r.autoCreate.Some? {
      YesFolds(r.autoCreate.value);
    }
    hide Fold;
  }

  /** The cache is what the log says. */
  ghost predicate Honest(s: State) {
    s.cache == Said(s.log)
  }

  lemma {:induction false} FetchGatewayHonest(s: State, a: Answers)
    requires Honest(s)
    ensures Honest(FetchGateway(s, a).0)
  {
    if a.gateway.Some? {
      ParsedAsSaid(a.gateway.value, s.log);
    } else {
      ParsedAsSaid(GatewayReply(None, None, None, None), s.log);
    }
    hide ParseGateway, Said;
  }

  lemma {:induction false} FetchModelsHonest(s: State, a: Answers)
    requires Honest(s)
    ensures Honest(FetchModels(s, a).0)
  {
    SaidAppend(s.log, ReadModels(s.cache.gateway.model, a.models));
  }

  lemma {:induction false} PreparedHonest(s: State, a: Answers)
    requires Honest(s)
    ensures Honest(Prepared(s, a).0)
  {
    FetchGatewayHonest(s, a);
    FetchModelsHonest(FetchGateway(s, a).0, a);
    hide FetchGateway, FetchModels, Honest;
  }

  lemma {:induction false} DevicePostHonest(gw: string, s: State, uid: int32, m: DeviceModel, a: Answers)
    requires Honest(s)
    ensures Honest(DevicePost(gw, s, uid, m, a).0)
    ensures PostsHonest(s.log, DevicePost(gw, s, uid, m, a).0.log)
  {
    var t := DevicePost(gw, s, uid, m, a).0;
    DevicePostOutcome(gw, s, uid, m, a);
    DevicePostCache(gw, s, uid, m, a);
    hide DevicePost, Holds;
    if t.log != s.log {
      SaidAppend(s.log, t.log[|s.log|]);
      assert t.log == s.log + [t.log[|s.log|]];
    }
  }

  lemma {:induction false} DevicePostCache(gw: string, s: State, uid: int32, m: DeviceModel, a: Answers)
    ensures var t := DevicePost(gw, s, uid, m, a).0;
            if |t.log| == |s.log| + 1 && t.log[|s.log|].PostDevice? then
              && t.log[|s.log|].cache == s.cache
              && t.cache == if t.log[|s.log|].accepted
                            then s.cache.(gateway := s.cache.gateway.(devices :=
                                            s.cache.gateway.devices + [t.log[|s.log|].reqId]))
                            else s.cache
            else t.cache == s.cache
  {
    hide DeviceId, Holds;
  }

  lemma {:induction false} SensorPostHonest(gw: string, s: State, uid: int32, kind: string, deviceId: string,
                                            m: DeviceModel, a: Answers)
    requires Honest(s)
    ensures Honest(SensorPost(gw, s, uid, kind, deviceId, m, a).0)
    ensures PostsHonest(s.log, SensorPost(gw, s, uid, kind, deviceId, m, a).0.log)
  {
    var t := SensorPost(gw, s, uid, kind, deviceId, m, a).0;
    SensorPostOutcome(gw, s, uid, kind, deviceId, m, a);
    SensorPostCache(gw, s, uid, kind, deviceId, m, a);
    hide SensorPost;
    if t.log != s.log {
      SaidAppend(s.log, t.log[|s.log|]);
      assert t.log == s.log + [t.log[|s.log|]];
    }
  }

  lemma {:induction false} SensorPostCache(gw: string, s: State, uid: int32, kind: string, deviceId: string,
                                           m: DeviceModel, a: Answers)
    ensures var t := SensorPost(gw, s, uid, kind, deviceId, m, a).0;
            |t.log| == |s.log| + 1 && t.log[|s.log|].PostSensor? ==> t.log[|s.log|].cache == s.cache
  {
    hide SensorId, Template, Remember, Holds, FindSensor;
  }

  /** Every POST of `log` after `before` was made from a cache that was what the log then said. */
  ghost predicate PostsHonest(before: seq<Request>, log: seq<Request>) {
    && before <= log
    && forall j :: |before| <= j < |log| && IsPost(log[j]) ==> log[j].cache == Said(log[..j])
  }

  lemma {:induction false} PostsHonestTrans(a: seq<Request>, b: seq<Request>, c: seq<Request>)
    requires PostsHonest(a, b) && PostsHonest(b, c)
    ensures PostsHonest(a, c)
  {
    forall j | |a| <= j < |c| && IsPost(c[j]) ensures c[j].cache == Said(c[..j]) {
      if j < |b| {
        assert c[..j] == b[..j] && c[j] == b[j];
      }
    }
  }

  lemma {:induction false} DeviceHonest(gw: string, s: State, uid: int32, modelId: string, a: Answers)
    requires Honest(s)
    ensures Honest(DeviceStep(gw, s, uid, modelId, a).0)
    ensures PostsHonest(s.log, DeviceStep(gw, s, uid, modelId, a).0.log)
  {
    var (s2, ready) := Prepared(s, a);
    PreparedHonest(s, a);
    PreparedReads(gw, s, RegisterDevice(uid, modelId), a);
    DeviceRoute(gw, s, uid, modelId, a);
    assert PostsHonest(s.log, s2.log);
    hide Prepared, DeviceStep, DevicePost, FindModel, Honest, PostsHonest, Reads;
    if ready && FindModel(s2.cache.models, modelId).Some? {
      DevicePostHonest(gw, s2, uid, FindModel(s2.cache.models, modelId).value, a);
      PostsHonestTrans(s.log, s2.log, DeviceStep(gw, s, uid, modelId, a).0.log);
    }
  }

  lemma {:induction false} SensorHonest(gw: string, s: State, uid: int32, kind: string, deviceId: string, a: Answers)
    requires Honest(s)
    ensures Honest(SensorStep(gw, s, uid, kind, deviceId, a).0)
    ensures PostsHonest(s.log, SensorStep(gw, s, uid, kind, deviceId, a).0.log)
  {
    var (s2, ready) := Prepared(s, a);
    var s3 := s2.(log := s2.log + [ReadDevice(deviceId, a.deviceModel)]);
    PreparedHonest(s, a);
    PreparedReads(gw, s, RegisterSensor(uid, kind, deviceId), a);
    SensorRoute(gw, s, uid, kind, deviceId, a);
    SaidAppend(s2.log, ReadDevice(deviceId, a.deviceModel));
    assert Honest(s3) && PostsHonest(s.log, s2.log) && PostsHonest(s.log, s3.log);
    hide Prepared, SensorStep, SensorPost, FindModel, Honest, PostsHonest, Reads;
    if ready && a.deviceModel.Some? && a.deviceModel.value.Some? &&
       FindModel(s3.cache.models, a.deviceModel.value.value).Some?
    {
      SensorPostHonest(gw, s3, uid, kind, deviceId, FindModel(s3.cache.models, a.deviceModel.value.value).value, a);
      PostsHonestTrans(s.log, s3.log, SensorStep(gw, s, uid, kind, deviceId, a).0.log);
    }
  }

  /** Over every run from an empty client, the cache is what the server said and took, and every
      POST was made from what it had said and taken by then. */
  lemma {:induction false} CacheFromReplies(gw: string, s: State, calls: seq<(Call, Answers)>)
    requires s.cache == EMPTY && s.log == []
    ensures Run(gw, s, calls).cache == Said(Run(gw, s, calls).log)
    ensures PostsHonest([], Run(gw, s, calls).log)
  {
    if calls == [] {
    } else {
      var n := |calls| - 1;
      var before := Run(gw, s, calls[..n]);
      CacheFromReplies(gw, s, calls[..n]);
      RunLast(gw, s, calls);
      match calls[n].0 {
        case RegisterDevice(uid, modelId) => DeviceHonest(gw, before, uid, modelId, calls[n].1);
        case RegisterSensor(uid, kind, deviceId) => SensorHonest(gw, before, uid, kind, deviceId, calls[n].1);
      }
      hide Run, DeviceStep, SensorStep, Said, PostsHonest;
      PostsHonestTrans([], before.log, Run(gw, s, calls).log);
    }
  }
}

/** Registration as a state machine over the cache of `rest.c`. The server is an oracle: each
    call comes with what the server would answer to every request the call may make. */
module Registry {
  import opened Text
  import opened Ids
  import opened Drivers

  datatype SensorModel = SensorModel(kind: string, driverName: string)

  datatype DeviceModel = DeviceModel(
    id: string, idTemplate: Option<string>, discoverable: bool, sensors: seq<SensorModel>)

  /** `struct thingplus_gateway`, as far as registration reads it. */
  datatype Gateway = Gateway(model: int, discoverable: bool, devices: seq<string>, sensors: seq<string>)

  /** The members of a gateway reply; None where the JSON has no such member. */
  datatype GatewayReply = GatewayReply(
    model: Option<int>, autoCreate: Option<string>, devices: Option<seq<string>>, sensors: Option<seq<string>>)

  /** None for a read that fails. `models` and `deviceModel` have a second layer: None for a
      reply without the member. `past` is what a short id template is taken to continue with. */
  datatype Answers = Answers(
    gateway: Option<GatewayReply>, models: Option<Option<seq<DeviceModel>>>, deviceModel: Option<Option<string>>,
    driver: Option<string>, accepted: bool, past: string)

  datatype Cache = Cache(gateway: Gateway, models: seq<DeviceModel>)

  datatype Request =
    | ReadGateway(gateway: Option<GatewayReply>)
    | ReadModels(number: int, models: Option<Option<seq<DeviceModel>>>)
    | ReadDevice(id: string, model: Option<Option<string>>)
    | PostDevice(reqId: string, modelId: string, accepted: bool, cache: Cache)
    | PostSensor(reqId: string, modelId: string, kind: string, accepted: bool, cache: Cache)

  datatype State = State(cache: Cache, drivers: seq<Driver>, log: seq<Request>)

  datatype Call =
    | RegisterDevice(uid: int32, modelId: string)
    | RegisterSensor(uid: int32, kind: string, deviceId: string)

  /** The return code, and the id left in the caller's buffer if the call got that far. */
  datatype Result = Result(code: int, id: Option<string>)

  const SUCCESS := 0
  const FAILED := -1
  const INVALID_TYPE := -11
  const DUPLICATED := -12
  const CURL_POST := -13
  const CURL_READ := -14
  const NOT_DISCOVERABLE := -15
  const UNKNOWN := -99

  /** `rest_init`: a model number of -1 marks the gateway as not fetched. */
  const EMPTY := Cache(Gateway(-1, false, [], []), [])

  /** What the failed fetch leaves: a zeroed record, which is not marked as empty. */
  const ZEROED := Gateway(0, false, [], [])

  /** `_gatewayinfo_parse`. */
  function ParseGateway(r: GatewayReply): Gateway {
    Gateway(
      if r.model.None? then -1 else r.model.value,
      r.autoCreate.Some? && EqualFold("Y", r.autoCreate.value),
      if r.devices.None? then [] else r.devices.value,
      if r.sensors.None? then [] else r.sensors.value)
  }

  predicate Holds(ids: seq<string>, id: string) {
    exists i :: 0 <= i < |ids| && EqualFold(ids[i], id)
  }

  /** `_device_model_get`: the first model with that id, up to case. */
  function FindModel(models: seq<DeviceModel>, id: string): (m: Option<DeviceModel>)
    ensures m.Some? ==> m.value in models && EqualFold(m.value.id, id)
    ensures m.None? ==> forall x :: x in models ==> !EqualFold(x.id, id)
  {
    if models == [] then None
    else if EqualFold(models[0].id, id) then Some(models[0])
    else FindModel(models[1..], id)
  }

  /** `_sensor_get`. */
  function FindSensor(sensors: seq<SensorModel>, kind: string): (m: Option<SensorModel>)
    ensures m.Some? ==> m.value in sensors && EqualFold(m.value.kind, kind)
    ensures m.None? ==> forall x :: x in sensors ==> !EqualFold(x.kind, kind)
  {
    if sensors == [] then None
    else if EqualFold(sensors[0].kind, kind) then Some(sensors[0])
    else FindSensor(sensors[1..], kind)
  }

  // ---------------------------------------------------------------- one call

  /** The gateway fetch both calls start with, when the cache is marked empty. */
  function FetchGateway(s: State, a: Answers): (State, bool) {
    if s.cache.gateway.model != -1 then (s, true)
    else
      var gateway := if a.gateway.None? then ZEROED else ParseGateway(a.gateway.value);
      (s.(cache := s.cache.(gateway := gateway), log := s.log + [ReadGateway(a.gateway)]), a.gateway.Some?)
  }

  /** `_gw_model_get`, made only while no model is cached. */
  function FetchModels(s: State, a: Answers): (State, bool) {
    if s.cache.models != [] then (s, true)
    else
      var models := if a.models.Some? && a.models.value.Some? then a.models.value.value else [];
      (s.(cache := s.cache.(models := models), log := s.log + [ReadModels(s.cache.gateway.model, a.models)]),
       a.models.Some?)
  }

  function DeviceStep(gw: string, s: State, uid: int32, modelId: string, a: Answers): (State, Result) {
    var (s1, fetched) := FetchGateway(s, a);
    if !fetched || !s1.cache.gateway.discoverable then (s1, Result(FAILED, None))
    else
      var (s2, modelled) := FetchModels(s1, a);
      if !modelled then (s2, Result(FAILED, None))
      else
        match FindModel(s2.cache.models, modelId)
        case None => (s2, Result(FAILED, None))
        case Some(m) => DevicePost(gw, s2, uid, m, a)
  }

  function DevicePost(gw: string, s: State, uid: int32, m: DeviceModel, a: Answers): (State, Result) {
    if !m.discoverable then (s, Result(NOT_DISCOVERABLE, None))
    else if m.idTemplate.None? then (s, Result(INVALID_TYPE, None))
    else
      var id := DeviceId(m.idTemplate.value, gw, uid, a.past);
      var devices := s.cache.gateway.devices;
      if Holds(devices, id) then (s, Result(DUPLICATED, Some(id)))
      else
        var posted := s.(log := s.log + [PostDevice(id, m.id, a.accepted, s.cache)]);
        if !a.accepted then (posted, Result(CURL_POST, Some(id)))
        else
          (posted.(cache := s.cache.(gateway := s.cache.gateway.(devices := devices + [id]))),
           Result(SUCCESS, Some(id)))
  }

  function SensorStep(gw: string, s: State, uid: int32, kind: string, deviceId: string, a: Answers): (State, Result) {
    var (s1, fetched) := FetchGateway(s, a);
    if !fetched then (s1, Result(FAILED, None))
    else if !s1.cache.gateway.discoverable then (s1, Result(NOT_DISCOVERABLE, None))
    else
      var (s2, modelled) := FetchModels(s1, a);
      if !modelled then (s2, Result(UNKNOWN, None))
      else
        var s3 := s2.(log := s2.log + [ReadDevice(deviceId, a.deviceModel)]);
        if a.deviceModel.None? || a.deviceModel.value.None? then (s3, Result(FAILED, None))
        else
          match FindModel(s3.cache.models, a.deviceModel.value.value)
          case None => (s3, Result(FAILED, None))
          case Some(m) => SensorPost(gw, s3, uid, kind, deviceId, m, a)
  }

  function SensorPost(gw: string, s: State, uid: int32, kind: string, deviceId: string, m: DeviceModel, a: Answers)
    : (State, Result)
  {
    if !m.discoverable then (s, Result(NOT_DISCOVERABLE, None))
    else
      match FindSensor(m.sensors, kind)
      case None => (s, Result(CURL_READ, None))
      case Some(sensor) =>
        var ask := Ask(sensor.driverName, a.driver);
        var id := SensorId(Template(s.drivers, ask), sensor.kind, gw, deviceId, uid);
        var asked := s.(drivers := Remember(s.drivers, ask));
        if Holds(s.cache.gateway.sensors, id) then (asked, Result(DUPLICATED, Some(id)))
        else
          (asked.(log := s.log + [PostSensor(id, m.id, sensor.kind, a.accepted, s.cache)]),
           Result(if a.accepted then SUCCESS else CURL_POST, Some(id)))
  }

  function Step(gw: string, s: State, c: Call, a: Answers): (State, Result) {
    match c
    case RegisterDevice(uid, modelId) => DeviceStep(gw, s, uid, modelId, a)
    case RegisterSensor(uid, kind, deviceId) => SensorStep(gw, s, uid, kind, deviceId, a)
  }

  function Run(gw: string, s: State, calls: seq<(Call, Answers)>): State {
    if calls == [] then s
    else
      var last := calls[|calls| - 1];
      Step(gw, Run(gw, s, calls[..|calls| - 1]), last.0, last.1).0
  }

  /** The state after the fetches of a call, and whether it goes on to register something. */
  function Prepared(s: State, a: Answers): (State, bool) {
    var (s1, fetched) := FetchGateway(s, a);
    if !fetched || !s1.cache.gateway.discoverable then (s1, false) else FetchModels(s1, a)
  }

  /** The cache after the fetches of a call. */
  function Fetched(s: State, a: Answers): Cache {
    Prepared(s, a).0.cache
  }

  // ---------------------------------------------------------------- the POST gate

  /** The `i`-th model is the first with that id, up to case. */
  ghost predicate FirstModel(models: seq<DeviceModel>, i: nat, id: string) {
    && i < |models| && EqualFold(models[i].id, id)
    && forall k :: 0 <= k < i ==> !EqualFold(models[k].id, id)
  }

  ghost predicate FirstSensor(sensors: seq<SensorModel>, i: nat, kind: string) {
    && i < |sensors| && EqualFold(sensors[i].kind, kind)
    && forall k :: 0 <= k < i ==> !EqualFold(sensors[k].kind, kind)
  }

  /** The posted id and model are those of the first matching model, which may be registered. */
  ghost predicate DeviceAllowed(gw: string, models: seq<DeviceModel>, c: Call, a: Answers, r: Request)
    requires c.RegisterDevice? && r.PostDevice?
  {
    exists i: nat ::
      && FirstModel(models, i, c.modelId) && models[i].discoverable && models[i].idTemplate.Some?
      && r.modelId == models[i].id && r.reqId == DeviceId(models[i].idTemplate.value, gw, c.uid, a.past)
  }

  /** The posted id, model and type are those of the first matching sensor of the first model that
      matches what the server says about the device. */
  ghost predicate SensorAllowed(gw: string, models: seq<DeviceModel>, drivers: seq<Driver>, c: Call, a: Answers,
                                r: Request)
    requires c.RegisterSensor? && r.PostSensor?
  {
    && a.deviceModel.Some? && a.deviceModel.value.Some?
    && exists i: nat, j: nat ::
         && FirstModel(models, i, a.deviceModel.value.value) && models[i].discoverable && r.modelId == models[i].id
         && FirstSensor(models[i].sensors, j, c.kind)
         && var x := models[i].sensors[j];
         && r.kind == x.kind
         && r.reqId == SensorId(Template(drivers, Ask(x.driverName, a.driver)), x.kind, gw, c.deviceId, c.uid)
  }

  /** What a call may send, and when. */
  ghost predicate Allowed(gw: string, s: State, c: Call, a: Answers, r: Request) {
    match r
    case ReadGateway(reply) => s.cache.gateway.model == -1 && reply == a.gateway
    case ReadModels(number, reply) =>
      Fetched(s, a).gateway.discoverable && number == Fetched(s, a).gateway.model && reply == a.models
    case ReadDevice(id, reply) =>
      c.RegisterSensor? && id == c.deviceId && Fetched(s, a).gateway.discoverable && reply == a.deviceModel
    case PostDevice(reqId, _, accepted, cache) =>
      && c.RegisterDevice? && accepted == a.accepted && cache == Fetched(s, a)
      && cache.gateway.discoverable && !Holds(cache.gateway.devices, reqId)
      && DeviceAllowed(gw, cache.models, c, a, r)
    case PostSensor(reqId, _, _, accepted, cache) =>
      && c.RegisterSensor? && accepted == a.accepted && cache == Fetched(s, a)
      && cache.gateway.discoverable && !Holds(cache.gateway.sensors, reqId)
      && SensorAllowed(gw, cache.models, s.drivers, c, a, r)
  }

  predicate IsPost(r: Request) {
    r.PostDevice? || r.PostSensor?
  }

  /** What a call adds to the log. */
  function Added(gw: string, s: State, c: Call, a: Answers): seq<Request> {
    var log := Step(gw, s, c, a).0.log;
    if s.log <= log then log[|s.log|..] else []
  }

  /** `log` is the log before the call and some reads that are allowed. */
  ghost predicate Reads(gw: string, s: State, c: Call, a: Answers, log: seq<Request>) {
    s.log <= log && forall i :: |s.log| <= i < |log| ==> !IsPost(log[i]) && Allowed(gw, s, c, a, log[i])
  }

  /** `log` is some reads and at most one POST after them, all allowed. */
  ghost predicate Shape(gw: string, s: State, c: Call, a: Answers, log: seq<Request>) {
    exists mid ::
      && Reads(gw, s, c, a, mid)
      && (log == mid || exists r :: log == mid + [r] && IsPost(r) && Allowed(gw, s, c, a, r))
  }

  lemma {:induction false} FindModelIsFirst(models: seq<DeviceModel>, id: string) returns (i: nat)
    requires FindModel(models, id).Some?
    ensures FirstModel(models, i, id) && models[i] == FindModel(models, id).value
  {
    if EqualFold(models[0].id, id) {
      i := 0;
    } else {
      i := FindModelIsFirst(models[1..], id);
      i := i + 1;
    }
  }

  lemma {:induction false} FindSensorIsFirst(sensors: seq<SensorModel>, kind: string) returns (i: nat)
    requires FindSensor(sensors, kind).Some?
    ensures FirstSensor(sensors, i, kind) && sensors[i] == FindSensor(sensors, kind).value
  {
    if EqualFold(sensors[0].kind, kind) {
      i := 0;
    } else {
      i := FindSensorIsFirst(sensors[1..], kind);
      i := i + 1;
    }
  }

  /** The fetches of a call are allowed reads, and touch nothing but the cache. */
  lemma {:induction false} PreparedReads(gw: string, s: State, c: Call, a: Answers)
    ensures var (s2, ready) := Prepared(s, a);
            Reads(gw, s, c, a, s2.log) && s2.drivers == s.drivers && (ready ==> s2.cache.gateway.discoverable)
  {
  }

  /** A device call: the fetches, and then a registration under the model that was asked for. */
  lemma {:induction false} DeviceRoute(gw: string, s: State, uid: int32, modelId: string, a: Answers)
    ensures var (s2, ready) := Prepared(s, a);
            DeviceStep(gw, s, uid, modelId, a) ==
            if !ready || FindModel(s2.cache.models, modelId).None? then (s2, Result(FAILED, None))
            else DevicePost(gw, s2, uid, FindModel(s2.cache.models, modelId).value, a)
  {
    hide DevicePost, FindModel;
  }

  /** A sensor call: the fetches, a read of the device, and then a registration under its model. */
  lemma {:induction false} SensorRoute(gw: string, s: State, uid: int32, kind: string, deviceId: string, a: Answers)
    ensures var (s2, ready) := Prepared(s, a);
            var (s', r) := SensorStep(gw, s, uid, kind, deviceId, a);
            var s3 := s2.(log := s2.log + [ReadDevice(deviceId, a.deviceModel)]);
            if !ready then s' == s2 && r.id == None && r.code in {FAILED, NOT_DISCOVERABLE, UNKNOWN}
            else
              (s', r) == if a.deviceModel.None? || a.deviceModel.value.None? ||
                            FindModel(s3.cache.models, a.deviceModel.value.value).None?
                         then (s3, Result(FAILED, None))
                         else SensorPost(gw, s3, uid, kind, deviceId,
                                         FindModel(s3.cache.models, a.deviceModel.value.value).value, a)
  {
    hide SensorPost, FindModel;
  }

  lemma {:induction false} DeviceShape(gw: string, s: State, uid: int32, modelId: string, a: Answers)
    ensures Shape(gw, s, RegisterDevice(uid, modelId), a, DeviceStep(gw, s, uid, modelId, a).0.log)
  {
    var c := RegisterDevice(uid, modelId);
    var (s2, ready) := Prepared(s, a);
    PreparedReads(gw, s, c, a);
    DeviceRoute(gw, s, uid, modelId, a);
    hide Prepared, DeviceStep, Reads, DeviceId, Holds;
    if ready && FindModel(s2.cache.models, modelId).Some? {
      var i := FindModelIsFirst(s2.cache.models, modelId);
      var m := s2.cache.models[i];
      if m.discoverable && m.idTemplate.Some? {
        var id := DeviceId(m.idTemplate.value, gw, uid, a.past);
        var r := PostDevice(id, m.id, a.accepted, s2.cache);
        assert DeviceAllowed(gw, s2.cache.models, c, a, r);
        assert !Holds(s2.cache.gateway.devices, id) ==> Allowed(gw, s, c, a, r);
      }
    }
  }

  lemma {:induction false} SensorShape(gw: string, s: State, uid: int32, kind: string, deviceId: string, a: Answers)
    ensures Shape(gw, s, RegisterSensor(uid, kind, deviceId), a, SensorStep(gw, s, uid, kind, deviceId, a).0.log)
  {
    var c := RegisterSensor(uid, kind, deviceId);
    var (s2, ready) := Prepared(s, a);
    PreparedReads(gw, s, c, a);
    SensorRoute(gw, s, uid, kind, deviceId, a);
    var s3 := s2.(log := s2.log + [ReadDevice(deviceId, a.deviceModel)]);
    assert ready ==> Reads(gw, s, c, a, s3.log);
    hide Prepared, SensorStep, Reads, SensorId, Holds, Template, Remember;
    if ready && a.deviceModel.Some? && a.deviceModel.value.Some? &&
       FindModel(s3.cache.models, a.deviceModel.value.value).Some?
    {
      var i := FindModelIsFirst(s3.cache.models, a.deviceModel.value.value);
      var m := s3.cache.models[i];
      if m.discoverable && FindSensor(m.sensors, kind).Some? {
        var j := FindSensorIsFirst(m.sensors, kind);
        var x := m.sensors[j];
        var id := SensorId(Template(s.drivers, Ask(x.driverName, a.driver)), x.kind, gw, deviceId, uid);
        var r := PostSensor(id, m.id, x.kind, a.accepted, s3.cache);
        assert SensorAllowed(gw, s3.cache.models, s.drivers, c, a, r);
        assert !Holds(s3.cache.gateway.sensors, id) ==> Allowed(gw, s, c, a, r);
      }
    }
  }

  /** What a log of that shape adds. */
  ghost predicate AddsAllowed(gw: string, s: State, c: Call, a: Answers, log: seq<Request>) {
    && s.log <= log
    && forall i :: |s.log| <= i < |log| ==> Allowed(gw, s, c, a, log[i]) && (IsPost(log[i]) ==> i == |log| - 1)
  }

  lemma {:induction false} ShapeAdds(gw: string, s: State, c: Call, a: Answers, log: seq<Request>)
    requires Shape(gw, s, c, a, log)
    ensures AddsAllowed(gw, s, c, a, log)
  {
    hide Allowed, IsPost;
    var mid :| Reads(gw, s, c, a, mid)
               && (log == mid || exists r :: log == mid + [r] && IsPost(r) && Allowed(gw, s, c, a, r));
    assert forall i :: |s.log| <= i < |mid| ==> log[i] == mid[i];
  }

  /** One call adds to the log only what it may send, and of POSTs at most one, after its reads. */
  lemma {:induction false} StepAdds(gw: string, s: State, c: Call, a: Answers)
    ensures Step(gw, s, c, a).0.log == s.log + Added(gw, s, c, a)
    ensures forall i :: 0 <= i < |Added(gw, s, c, a)| ==>
              && Allowed(gw, s, c, a, Added(gw, s, c, a)[i])
              && (IsPost(Added(gw, s, c, a)[i]) ==> i == |Added(gw, s, c, a)| - 1)
  {
    match c {
      case RegisterDevice(uid, modelId) => DeviceShape(gw, s, uid, modelId, a);
      case RegisterSensor(uid, kind, deviceId) => SensorShape(gw, s, uid, kind, deviceId, a);
    }
    var log := Step(gw, s, c, a).0.log;
    hide DeviceStep, SensorStep, Shape, Allowed, IsPost;
    ShapeAdds(gw, s, c, a, log);
    hide Step;
    assert forall i :: 0 <= i < |log| - |s.log| ==> Added(gw, s, c, a)[i] == log[|s.log| + i];
  }

  /** Entry `j` of the run's log was sent by one of its calls, which was allowed to send it. */
  ghost predicate Due(gw: string, s: State, calls: seq<(Call, Answers)>, j: nat)
    requires j < |Run(gw, s, calls).log|
  {
    exists n :: 0 <= n < |calls| && SentBy(gw, s, calls, j, n)
  }

  ghost predicate SentBy(gw: string, s: State, calls: seq<(Call, Answers)>, j: nat, n: nat)
    requires j < |Run(gw, s, calls).log| && n < |calls|
  {
    var before := Run(gw, s, calls[..n]);
    && |before.log| <= j < |Run(gw, s, calls[..n + 1]).log|
    && Allowed(gw, before, calls[n].0, calls[n].1, Run(gw, s, calls).log[j])
  }

  lemma {:induction false} RunLast(gw: string, s: State, calls: seq<(Call, Answers)>)
    requires calls != []
    ensures var n := |calls| - 1;
            Run(gw, s, calls) == Step(gw, Run(gw, s, calls[..n]), calls[n].0, calls[n].1).0
  {
    hide Step;
  }

  lemma {:induction false} RunAppend(gw: string, s: State, calls: seq<(Call, Answers)>, last: (Call, Answers))
    ensures Run(gw, s, calls + [last]) == Step(gw, Run(gw, s, calls), last.0, last.1).0
  {
    assert (calls + [last])[..|calls|] == calls;
    hide Step;
  }

  lemma {:induction false} SentByEarlier(gw: string, s: State, calls: seq<(Call, Answers)>, m: nat, j: nat)
    requires m <= |calls| && Run(gw, s, calls[..m]).log <= Run(gw, s, calls).log
    requires j < |Run(gw, s, calls[..m]).log| && Due(gw, s, calls[..m], j)
    ensures Due(gw, s, calls, j)
  {
    hide Run, Allowed;
    var k :| 0 <= k < m && SentBy(gw, s, calls[..m], j, k);
    assert calls[..m][..k] == calls[..k] && calls[..m][..k + 1] == calls[..k + 1];
    assert SentBy(gw, s, calls, j, k);
  }

  /** Over every run of register calls, everything sent passes the gate of the call that sent it. */
  lemma {:induction false} PostGate(gw: string, s: State, calls: seq<(Call, Answers)>)
    ensures s.log <= Run(gw, s, calls).log
    ensures forall j :: |s.log| <= j < |Run(gw, s, calls).log| ==> Due(gw, s, calls, j)
  {
    if calls == [] {
    } else {
      var n := |calls| - 1;
      var before := Run(gw, s, calls[..n]);
      PostGate(gw, s, calls[..n]);
      RunLast(gw, s, calls);
      StepAdds(gw, before, calls[n].0, calls[n].1);
      hide Run, Allowed, Step, Added;
      assert calls[..n + 1] == calls;
      forall j | |s.log| <= j < |Run(gw, s, calls).log| ensures Due(gw, s, calls, j) {
        if j < |before.log| {
          SentByEarlier(gw, s, calls, n, j);
        } else {
          assert SentBy(gw, s, calls, j, n);
        }
      }
    }
  }

  // ---------------------------------------------------------------- a failed fetch closes the client

  predicate Closed(s: State) {
    s.cache.gateway.model != -1 && !s.cache.gateway.discoverable
  }

  /** A gateway fetch that fails leaves a cache that looks filled and refuses everything. */
  lemma {:induction false} FailedFetchCloses(gw: string, s: State, c: Call, a: Answers)
    requires s.cache.gateway.model == -1 && a.gateway.None?
    ensures var (s', r) := Step(gw, s, c, a);
            Closed(s') && r == Result(FAILED, None) && s'.log == s.log + [ReadGateway(None)]
  {
  }

  /** After that no later call sends anything. */
  lemma {:induction false} ClosedForever(gw: string, s: State, calls: seq<(Call, Answers)>)
    requires Closed(s)
    ensures Run(gw, s, calls) == s
  {
    if calls == [] {
    } else {
      ClosedForever(gw, s, calls[..|calls| - 1]);
    }
  }

  // ---------------------------------------------------------------- the device registry

  predicate Unique(ids: seq<string>) {
    forall i, j :: 0 <= i < j < |ids| ==> !EqualFold(ids[i], ids[j])
  }

  ghost predicate UniqueReply(a: Answers) {
    a.gateway.Some? && a.gateway.value.devices.Some? ==> Unique(a.gateway.value.devices.value)
  }

  lemma {:induction false} UniqueAppend(ids: seq<string>, id: string)
    requires Unique(ids) && !Holds(ids, id)
    ensures Unique(ids + [id])
  {
  }

  lemma {:induction false} StepUnique(gw: string, s: State, c: Call, a: Answers)
    requires Unique(s.cache.gateway.devices) && UniqueReply(a)
    ensures Unique(Step(gw, s, c, a).0.cache.gateway.devices)
  {
    assert Unique(Fetched(s, a).gateway.devices);
    match c {
      case RegisterDevice(uid, modelId) =>
        DeviceOutcome(gw, s, uid, modelId, a);
        var (s', r) := DeviceStep(gw, s, uid, modelId, a);
        if r.code == SUCCESS {
          UniqueAppend(Fetched(s, a).gateway.devices, r.id.value);
        }
      case RegisterSensor(uid, kind, deviceId) => SensorOutcome(gw, s, uid, kind, deviceId, a);
    }
  }

  /** If no fetched device list has two ids equal up to case, the cached list never has. */
  lemma {:induction false} RegistryUnique(gw: string, s: State, calls: seq<(Call, Answers)>)
    requires Unique(s.cache.gateway.devices) && forall i :: 0 <= i < |calls| ==> UniqueReply(calls[i].1)
    ensures Unique(Run(gw, s, calls).cache.gateway.devices)
  {
    if calls == [] {
    } else {
      var n := |calls| - 1;
      RegistryUnique(gw, s, calls[..n]);
      StepUnique(gw, Run(gw, s, calls[..n]), calls[n].0, calls[n].1);
    }
  }

  /** The call's kind of POST is among the entries of `log` after `before`, answered as said. */
  ghost predicate Sent(c: Call, before: seq<Request>, log: seq<Request>, accepted: bool) {
    exists i :: |before| <= i < |log| && PostOf(c, log[i]) && log[i].accepted == accepted
  }

  predicate PostOf(c: Call, r: Request) {
    if c.RegisterDevice? then r.PostDevice? else r.PostSensor?
  }

  lemma {:induction false} DevicePostOutcome(gw: string, s: State, uid: int32, m: DeviceModel, a: Answers)
    ensures var (s', r) := DevicePost(gw, s, uid, m, a);
            && s.log <= s'.log && |s'.log| <= |s.log| + 1
            && (r.code in {SUCCESS, CURL_POST} <==> |s'.log| == |s.log| + 1)
            && (r.code == DUPLICATED <==> r.id.Some? && Holds(s.cache.gateway.devices, r.id.value))
            && (|s'.log| == |s.log| + 1 ==>
                  var post := s'.log[|s.log|];
                  post.PostDevice? && r.id == Some(post.reqId) && (r.code == SUCCESS <==> post.accepted))
            && (r.code != SUCCESS ==> s'.cache == s.cache)
            && (r.code == SUCCESS ==>
                  && !Holds(s.cache.gateway.devices, r.id.value)
                  && s'.cache.gateway.devices == s.cache.gateway.devices + [r.id.value])
  {
    hide DeviceId;
  }

  /** A device call succeeds exactly when it sent a device POST that was accepted; then the posted
      id is new and is appended to the list; otherwise the list is the one the fetches left. It is
      a duplicate exactly when it got as far as an id, and the list has that id. */
  lemma {:induction false} DeviceOutcome(gw: string, s: State, uid: int32, modelId: string, a: Answers)
    ensures var (s', r) := DeviceStep(gw, s, uid, modelId, a);
            var c, fetched := RegisterDevice(uid, modelId), Fetched(s, a).gateway.devices;
            && (r.code == SUCCESS <==> Sent(c, s.log, s'.log, true))
            && (r.code == CURL_POST <==> Sent(c, s.log, s'.log, false))
            && (r.code == DUPLICATED <==> r.id.Some? && Holds(fetched, r.id.value))
            && (r.code == SUCCESS ==>
                  && r.id == Some(s'.log[|s'.log| - 1].reqId) && !Holds(fetched, r.id.value)
                  && s'.cache.gateway.devices == fetched + [r.id.value])
            && (r.code != SUCCESS ==> s'.cache.gateway.devices == fetched)
  {
    var (s2, ready) := Prepared(s, a);
    PreparedReads(gw, s, RegisterDevice(uid, modelId), a);
    DeviceRoute(gw, s, uid, modelId, a);
    hide Prepared, DeviceStep, FindModel, DevicePost, Holds, Allowed;
    var (s', r) := DeviceStep(gw, s, uid, modelId, a);
    if ready && FindModel(s2.cache.models, modelId).Some? {
      DevicePostOutcome(gw, s2, uid, FindModel(s2.cache.models, modelId).value, a);
      assert |s'.log| == |s2.log| + 1 ==> PostOf(RegisterDevice(uid, modelId), s'.log[|s2.log|]);
    }
  }

  lemma {:induction false} SensorPostOutcome(gw: string, s: State, uid: int32, kind: string, deviceId: string,
                                             m: DeviceModel, a: Answers)
    ensures var (s', r) := SensorPost(gw, s, uid, kind, deviceId, m, a);
            && s'.cache == s.cache && s.log <= s'.log && |s'.log| <= |s.log| + 1
            && (r.code in {SUCCESS, CURL_POST} <==> |s'.log| == |s.log| + 1)
            && (r.code == DUPLICATED <==> r.id.Some? && Holds(s.cache.gateway.sensors, r.id.value))
            && (|s'.log| == |s.log| + 1 ==>
                  var post := s'.log[|s.log|];
                  post.PostSensor? && r.id == Some(post.reqId) && (r.code == SUCCESS <==> post.accepted))
  {
    hide SensorId, Template, Remember;
  }

  /** A sensor call succeeds exactly when it sent a sensor POST that was accepted, with the id it
      returns; it registers no device, and it does not remember the sensor. */
  lemma {:induction false} SensorOutcome(gw: string, s: State, uid: int32, kind: string, deviceId: string, a: Answers)
    ensures var (s', r) := SensorStep(gw, s, uid, kind, deviceId, a);
            var c := RegisterSensor(uid, kind, deviceId);
            && s'.cache == Fetched(s, a)
            && (r.code == SUCCESS <==> Sent(c, s.log, s'.log, true))
            && (r.code == CURL_POST <==> Sent(c, s.log, s'.log, false))
            && (r.code == DUPLICATED <==> r.id.Some? && Holds(s'.cache.gateway.sensors, r.id.value))
            && (r.code == SUCCESS ==> r.id == Some(s'.log[|s'.log| - 1].reqId))
  {
    var c := RegisterSensor(uid, kind, deviceId);
    var (s2, ready) := Prepared(s, a);
    PreparedReads(gw, s, c, a);
    SensorRoute(gw, s, uid, kind, deviceId, a);
    hide Prepared, SensorStep, FindModel, SensorPost, Allowed;
    var (s', r) := SensorStep(gw, s, uid, kind, deviceId, a);
    var s3 := s2.(log := s2.log + [ReadDevice(deviceId, a.deviceModel)]);
    if ready && a.deviceModel.Some? && a.deviceModel.value.Some? &&
       FindModel(s3.cache.models, a.deviceModel.value.value).Some?
    {
      SensorPostOutcome(gw, s3, uid, kind, deviceId, FindModel(s3.cache.models, a.deviceModel.value.value).value, a);
      assert |s'.log| == |s3.log| + 1 ==> PostOf(c, s'.log[|s3.log|]);
    }
  }

  // ---------------------------------------------------------------- registering twice

  /** What no call undoes: the cached gate and models stay, and the device list only grows. */
  ghost predicate Kept(s: State, t: State) {
    && t.cache.models == s.cache.models && t.cache.gateway.model == s.cache.gateway.model
    && t.cache.gateway.discoverable == s.cache.gateway.discoverable
    && t.cache.gateway.sensors == s.cache.gateway.sensors
    && s.cache.gateway.devices <= t.cache.gateway.devices
    && forall key :: Find(s.drivers, key).Some? ==> Find(t.drivers, key) == Find(s.drivers, key)
  }

  lemma {:induction false} RememberKeeps(table: seq<Driver>, ask: Ask)
    ensures forall key :: Find(table, key).Some? ==> Find(Remember(table, ask), key) == Find(table, key)
  {
    forall key | Find(table, key).Some? ensures Find(Remember(table, ask), key) == Find(table, key) {
      if ask.answer.Some? {
        FindAppend(table, Driver(ask.name, ask.answer.value), key);
      }
    }
  }

  lemma {:induction false} SensorPostKeeps(gw: string, s: State, uid: int32, kind: string, deviceId: string,
                                           m: DeviceModel, a: Answers)
    ensures var t := SensorPost(gw, s, uid, kind, deviceId, m, a).0;
            && t.cache == s.cache
            && forall key :: Find(s.drivers, key).Some? ==> Find(t.drivers, key) == Find(s.drivers, key)
  {
    var x := FindSensor(m.sensors, kind);
    if x.Some? {
      RememberKeeps(s.drivers, Ask(x.value.driverName, a.driver));
    }
    hide Find, Remember, SensorId, Template, Holds, FindSensor;
  }

  lemma {:induction false} StepKeeps(gw: string, s: State, c: Call, a: Answers)
    requires s.cache.gateway.model != -1 && s.cache.models != []
    ensures Kept(s, Step(gw, s, c, a).0)
  {
    match c {
      case RegisterDevice(uid, modelId) =>
        hide DeviceId, FindModel, Holds, Find;
      case RegisterSensor(uid, kind, deviceId) =>
        var (s2, ready) := Prepared(s, a);
        CachedModelsReads(s, a);
        SensorRoute(gw, s, uid, kind, deviceId, a);
        if ready && a.deviceModel.Some? && a.deviceModel.value.Some? {
          var s3 := s2.(log := s2.log + [ReadDevice(deviceId, a.deviceModel)]);
          var m := FindModel(s3.cache.models, a.deviceModel.value.value);
          if m.Some? {
            SensorPostKeeps(gw, s3, uid, kind, deviceId, m.value, a);
          }
        }
        hide Prepared, SensorStep, SensorPost, FindModel, Find;
    }
  }

  lemma {:induction false} RunKeeps(gw: string, s: State, calls: seq<(Call, Answers)>)
    requires s.cache.gateway.model != -1 && s.cache.models != []
    ensures Kept(s, Run(gw, s, calls))
  {
    if calls == [] {
    } else {
      var n := |calls| - 1;
      RunKeeps(gw, s, calls[..n]);
      StepKeeps(gw, Run(gw, s, calls[..n]), calls[n].0, calls[n].1);
      RunLast(gw, s, calls);
      hide Run, Step;
    }
  }

  /** What a success tells about the state it leaves. */
  lemma {:induction false} AfterDeviceSuccess(gw: string, s: State, uid: int32, modelId: string, a: Answers)
    requires DeviceStep(gw, s, uid, modelId, a).1.code == SUCCESS
    ensures var (s1, r1) := DeviceStep(gw, s, uid, modelId, a);
            var m := FindModel(s1.cache.models, modelId);
            && s1.cache.gateway.discoverable && s1.cache.models != [] && r1.id.Some?
            && m.Some? && m.value.discoverable && m.value.idTemplate.Some?
            && r1.id.value == DeviceId(m.value.idTemplate.value, gw, uid, a.past)
            && s1.cache.gateway.devices == Fetched(s, a).gateway.devices + [r1.id.value]
  {
    DeviceRoute(gw, s, uid, modelId, a);
    PreparedReads(gw, s, RegisterDevice(uid, modelId), a);
    hide Prepared, DeviceStep, DeviceId, Holds, Reads;
  }

  /** What a device call does on a filled, open cache with models. */
  lemma {:induction false} CachedDeviceStep(gw: string, s: State, uid: int32, modelId: string, a: Answers)
    requires s.cache.gateway.model != -1 && s.cache.gateway.discoverable && s.cache.models != []
    requires FindModel(s.cache.models, modelId).Some?
    ensures DeviceStep(gw, s, uid, modelId, a) == DevicePost(gw, s, uid, FindModel(s.cache.models, modelId).value, a)
  {
    hide DevicePost, FindModel;
  }

  /** After a success, and after any other calls, the same registration is refused as a duplicate
      and sends nothing, whatever the server would say, provided the cache is not marked empty. */
  lemma {:induction false} RepeatIsDuplicate(gw: string, s: State, uid: int32, modelId: string, a: Answers,
                                             calls: seq<(Call, Answers)>, b: Answers)
    requires DeviceStep(gw, s, uid, modelId, a).1.code == SUCCESS && b.past == a.past
    requires DeviceStep(gw, s, uid, modelId, a).0.cache.gateway.model != -1
    ensures var (s1, r1) := DeviceStep(gw, s, uid, modelId, a);
            var s2 := Run(gw, s1, calls);
            DeviceStep(gw, s2, uid, modelId, b) == (s2, Result(DUPLICATED, r1.id))
  {
    var (s1, r1) := DeviceStep(gw, s, uid, modelId, a);
    var s2 := Run(gw, s1, calls);
    AfterDeviceSuccess(gw, s, uid, modelId, a);
    RunKeeps(gw, s1, calls);
    CachedDeviceStep(gw, s2, uid, modelId, b);
    hide DeviceStep, Run, DeviceId, FindModel, Fetched;
    assert EqualFold(s2.cache.gateway.devices[|s1.cache.gateway.devices| - 1], r1.id.value);
  }

  /** When the gateway reply carries no model number the cache stays marked empty: the next call
      fetches again, and the same device can be posted twice. */
  lemma {:induction false} RepeatCanPostAgain(gw: string, s: State, uid: int32, modelId: string, a: Answers)
    requires DeviceStep(gw, s, uid, modelId, a).1.code == SUCCESS
    requires DeviceStep(gw, s, uid, modelId, a).0.cache.gateway.model == -1
    ensures exists b: Answers :: b.past == a.past &&
              DeviceStep(gw, DeviceStep(gw, s, uid, modelId, a).0, uid, modelId, b).1.code == SUCCESS
  {
    var b := a.(gateway := Some(GatewayReply(None, Some("Y"), None, None)));
    var s1 := DeviceStep(gw, s, uid, modelId, a).0;
    assert DeviceStep(gw, s1, uid, modelId, b).1.code == SUCCESS;
  }

  lemma {:induction false} OtherAddress(gw: string, template: string, before: seq<string>, u: int32, past: string,
                                        after: seq<string>, other: string, v: int32, past': string)
    requires EqualFold(template, GATEWAY_AND_ADDRESS) && EqualFold(other, GATEWAY_AND_ADDRESS) && u != v
    ensures Holds(before + [DeviceId(template, gw, u, past)] + after, DeviceId(other, gw, v, past')) <==>
            Holds(before + after, DeviceId(other, gw, v, past'))
  {
    var one, two := DeviceId(template, gw, u, past), DeviceId(other, gw, v, past');
    AddressId(template, gw, v, past);
    AddressId(other, gw, v, past');
    if EqualFold(one, two) {
      DeviceIdInjective(template, gw, u, v, past);
      assert false;
    }
    hide DeviceId, EqualFold;
    HoldsElsewhere(before, one, after, two);
  }

  lemma {:induction false} HoldsElsewhere(before: seq<string>, one: string, after: seq<string>, id: string)
    requires !EqualFold(one, id)
    ensures Holds(before + [one] + after, id) <==> Holds(before + after, id)
  {
    hide EqualFold;
    var all, rest, n := before + [one] + after, before + after, |before|;
    if Holds(all, id) {
      var i :| 0 <= i < |all| && EqualFold(all[i], id);
      assert rest[if i < n then i else i - 1] == all[i];
    }
    if Holds(rest, id) {
      var i :| 0 <= i < |rest| && EqualFold(rest[i], id);
      assert all[if i < n then i else i + 1] == rest[i];
    }
  }

  predicate ByAddress(m: Option<DeviceModel>) {
    m.Some? && m.value.idTemplate.Some? && EqualFold(m.value.idTemplate.value, GATEWAY_AND_ADDRESS)
  }

  /** What a call answers about duplicates, in any state: a device it can register is a duplicate
      exactly when the list the fetches left holds its id. */
  lemma {:induction false} DuplicateExactly(gw: string, s: State, v: int32, modelId: string, b: Answers)
    ensures var m := FindModel(Fetched(s, b).models, modelId);
            DeviceStep(gw, s, v, modelId, b).1.code == DUPLICATED <==>
            && Prepared(s, b).1 && m.Some? && m.value.discoverable && m.value.idTemplate.Some?
            && Holds(Fetched(s, b).gateway.devices, DeviceId(m.value.idTemplate.value, gw, v, b.past))
  {
    DeviceRoute(gw, s, v, modelId, b);
    hide Prepared, DeviceStep, DeviceId, Holds, FindModel;
  }

  /** Registering one address never makes another look registered. After a success for `u`, and any
      other calls, a call for `v` under the address template is refused as a duplicate exactly when
      it would be if `u` had left no trace: when the list held the id of `v` before, or has got it
      since. (On a cache that is marked empty the list is the server's, fetched anew:
      `DuplicateExactly`.) */
  lemma {:induction false} OtherAddressUnaffected(gw: string, s: State, u: int32, modelU: string, a: Answers,
                                                  calls: seq<(Call, Answers)>, v: int32, modelV: string, b: Answers)
    returns (since: seq<string>)
    requires DeviceStep(gw, s, u, modelU, a).1.code == SUCCESS && u != v
    requires var s1 := DeviceStep(gw, s, u, modelU, a).0;
             && s1.cache.gateway.model != -1
             && ByAddress(FindModel(s1.cache.models, modelU)) && ByAddress(FindModel(s1.cache.models, modelV))
    ensures var s1 := DeviceStep(gw, s, u, modelU, a).0;
            var s2, m := Run(gw, s1, calls), FindModel(s1.cache.models, modelV).value;
            && s2.cache.gateway.devices == s1.cache.gateway.devices + since
            && (DeviceStep(gw, s2, v, modelV, b).1.code == DUPLICATED <==>
                && m.discoverable
                && Holds(Fetched(s, a).gateway.devices + since, DeviceId(m.idTemplate.value, gw, v, b.past)))
  {
    var (s1, r1) := DeviceStep(gw, s, u, modelU, a);
    var s2 := Run(gw, s1, calls);
    AfterDeviceSuccess(gw, s, u, modelU, a);
    RunKeeps(gw, s1, calls);
    FilledPrepared(s2, b);
    DuplicateExactly(gw, s2, v, modelV, b);
    var one, other := FindModel(s1.cache.models, modelU).value, FindModel(s1.cache.models, modelV).value;
    var before := Fetched(s, a).gateway.devices;
    since := s2.cache.gateway.devices[|s1.cache.gateway.devices|..];
    OtherAddress(gw, one.idTemplate.value, before, u, a.past, since, other.idTemplate.value, v, b.past);
    hide DeviceStep, DeviceId, FindModel, Fetched, Holds, Prepared, Run, EqualFold;
  }

  /** A filled, open cache with models is used as it is. */
  lemma {:induction false} FilledPrepared(s: State, a: Answers)
    requires s.cache.gateway.model != -1 && s.cache.gateway.discoverable && s.cache.models != []
    ensures Prepared(s, a) == (s, true) && Fetched(s, a) == s.cache
  {
  }

  lemma {:induction false} TemplateAgain(table: seq<Driver>, ask: Ask)
    ensures Template(Remember(table, ask), ask) == Template(table, ask)
    ensures Remember(Remember(table, ask), ask) == Remember(table, ask)
  {
    if Find(table, Fold(ask.name)).None? && ask.answer.Some? {
      FindAppend(table, Driver(ask.name, ask.answer.value), Fold(ask.name));
    }
  }

  /** What a success of a sensor call tells about the state it leaves. */
  lemma {:induction false} AfterSensorSuccess(gw: string, s: State, uid: int32, kind: string, deviceId: string,
                                              a: Answers)
    returns (m: DeviceModel, x: SensorModel)
    requires SensorStep(gw, s, uid, kind, deviceId, a).1.code == SUCCESS
    ensures var (s1, r1) := SensorStep(gw, s, uid, kind, deviceId, a);
            var ask := Ask(x.driverName, a.driver);
            && s1.cache == Fetched(s, a) && s1.cache.gateway.discoverable && s1.cache.models != []
            && a.deviceModel.Some? && a.deviceModel.value.Some?
            && FindModel(s1.cache.models, a.deviceModel.value.value) == Some(m) && m.discoverable
            && FindSensor(m.sensors, kind) == Some(x)
            && s1.drivers == Remember(s.drivers, ask)
            && r1 == Result(SUCCESS, Some(SensorId(Template(s.drivers, ask), x.kind, gw, deviceId, uid)))
            && !Holds(s1.cache.gateway.sensors, r1.id.value)
            && s1.log != [] && s1.log[|s1.log| - 1] == PostSensor(r1.id.value, m.id, x.kind, true, s1.cache)
  {
    SensorRoute(gw, s, uid, kind, deviceId, a);
    PreparedReads(gw, s, RegisterSensor(uid, kind, deviceId), a);
    m := FindModel(Fetched(s, a).models, a.deviceModel.value.value).value;
    x := FindSensor(m.sensors, kind).value;
    hide Prepared, SensorStep, SensorId, Template, Remember, Holds, Reads;
  }

  /** Sensors are not remembered. When the registration that just succeeded is made again, with the
      same answers about the device and its driver and a gateway that is open, it gets the same id;
      it is a duplicate exactly when the sensor list now cached has that id, which without a new
      fetch it never has; and otherwise the same POST is sent again, and nothing but reads before it. */
  lemma {:induction false} SensorRepeatPostsAgain(gw: string, s: State, uid: int32, kind: string, deviceId: string,
                                                  a: Answers, b: Answers)
    requires SensorStep(gw, s, uid, kind, deviceId, a).1.code == SUCCESS
    requires b.deviceModel == a.deviceModel && b.driver == a.driver
    requires Prepared(SensorStep(gw, s, uid, kind, deviceId, a).0, b).1
    ensures var (s1, r1) := SensorStep(gw, s, uid, kind, deviceId, a);
            var (s2, r2) := SensorStep(gw, s1, uid, kind, deviceId, b);
            var first, cache := s1.log[|s1.log| - 1], Fetched(s1, b);
            var before := (if s1.cache.gateway.model == -1 then [ReadGateway(b.gateway)] else [])
                          + [ReadDevice(deviceId, b.deviceModel)];
            && r2.id == r1.id == Some(first.reqId)
            && (r2.code == DUPLICATED <==> Holds(cache.gateway.sensors, first.reqId))
            && (s1.cache.gateway.model != -1 ==> cache == s1.cache && r2.code != DUPLICATED)
            && (r2.code == DUPLICATED ==> s2.log == s1.log + before)
            && (r2.code != DUPLICATED ==>
                  && r2.code == (if b.accepted then SUCCESS else CURL_POST)
                  && s2.log == s1.log + before + [first.(accepted := b.accepted, cache := cache)])
  {
    var (s1, r1) := SensorStep(gw, s, uid, kind, deviceId, a);
    var m, x := AfterSensorSuccess(gw, s, uid, kind, deviceId, a);
    TemplateAgain(s.drivers, Ask(x.driverName, a.driver));
    CachedModelsReads(s1, b);
    SensorRoute(gw, s1, uid, kind, deviceId, b);
    hide Prepared, SensorStep, SensorId, Template, Remember, Holds, FindModel, FindSensor;
  }

  lemma {:induction false} TemplateKept(table: seq<Driver>, ask: Ask, later: seq<Driver>, again: Ask)
    requires Fold(again.name) == Fold(ask.name) && ask.answer.Some?
    requires forall key :: Find(Remember(table, ask), key).Some? ==> Find(later, key) == Find(Remember(table, ask), key)
    ensures Template(later, again) == Template(table, ask)
  {
    TemplateAgain(table, ask);
    if Find(table, Fold(ask.name)).None? {
      FindAppend(table, Driver(ask.name, ask.answer.value), Fold(ask.name));
    }
  }

  /** The same on a filled cache after any other calls: the sensor is never a duplicate under the id
      it got, and the same POST is sent again. The id can only have changed when its driver could
      not be read before. */
  lemma {:induction false} SensorRepeatLater(gw: string, s: State, uid: int32, kind: string, deviceId: string,
                                             a: Answers, calls: seq<(Call, Answers)>, b: Answers)
    requires SensorStep(gw, s, uid, kind, deviceId, a).1.code == SUCCESS && b.deviceModel == a.deviceModel
    requires SensorStep(gw, s, uid, kind, deviceId, a).0.cache.gateway.model != -1
    ensures var (s1, r1) := SensorStep(gw, s, uid, kind, deviceId, a);
            var s2 := Run(gw, s1, calls);
            var (s3, r2) := SensorStep(gw, s2, uid, kind, deviceId, b);
            var first := s1.log[|s1.log| - 1];
            && r2.id.Some? && (a.driver.Some? ==> r2.id == r1.id)
            && (r2.code == DUPLICATED <==> Holds(s1.cache.gateway.sensors, r2.id.value))
            && (r2.id == r1.id ==>
                  && r2.code == (if b.accepted then SUCCESS else CURL_POST)
                  && s3.log == s2.log + [ReadDevice(deviceId, b.deviceModel),
                                         first.(accepted := b.accepted, cache := s2.cache)])
  {
    var (s1, r1) := SensorStep(gw, s, uid, kind, deviceId, a);
    var s2 := Run(gw, s1, calls);
    var m, x := AfterSensorSuccess(gw, s, uid, kind, deviceId, a);
    RunKeeps(gw, s1, calls);
    FilledPrepared(s2, b);
    SensorRoute(gw, s2, uid, kind, deviceId, b);
    if a.driver.Some? {
      TemplateKept(s.drivers, Ask(x.driverName, a.driver), s2.drivers, Ask(x.driverName, b.driver));
    }
    hide Prepared, SensorStep, SensorId, Template, Remember, Holds, FindModel, FindSensor, Run, Find;
  }

  /** With models in the cache, the fetches of a call are at most the gateway's. */
  lemma {:induction false} CachedModelsReads(s: State, a: Answers)
    requires s.cache.models != []
    ensures var (s2, ready) := Prepared(s, a);
            && s2.log == s.log + (if s.cache.gateway.model == -1 then [ReadGateway(a.gateway)] else [])
            && s2.cache.models == s.cache.models && s2.drivers == s.drivers
            && (s.cache.gateway.model != -1 ==> s2.cache == s.cache)
  {
  }
}

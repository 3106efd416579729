/** `struct rest`: the cached gateway and gateway model, and the two register calls. */
module Rest {
  import opened Text
  import opened Ids
  import opened Drivers
  import opened Registry
  import opened Provenance

  class Client {
    const gw: string
    const drivers: SensorDrivers
    var gateway: Gateway
    var models: seq<DeviceModel>
    ghost var log: seq<Request>
    /** The state this client was created in, and the register calls made on it since. */
    ghost const start: State
    ghost var calls: seq<(Call, Answers)>

    ghost function Abstract(): State
      reads this, drivers
    {
      State(Cache(gateway, models), drivers.list, log)
    }

    /** The object is where its calls have led it. */
    ghost predicate Recorded()
      reads this, drivers
    {
      Abstract() == Run(gw, start, calls)
    }

    /** Everything this client ever sent passed the gate of the call that sent it. */
    lemma {:induction false} LogGated()
      requires Recorded() && start.log == []
      ensures log == Run(gw, start, calls).log
      ensures forall j :: 0 <= j < |log| ==> Due(gw, start, calls, j)
    {
      hide Run, Due;
      PostGate(gw, start, calls);
    }

    /** What this client has cached is what the server told it and took from it, and so was the
        cache each of its POSTs was made from. */
    lemma {:induction false} CacheKnown()
      requires Recorded() && start.cache == EMPTY && start.log == []
      ensures Cache(gateway, models) == Said(log) && PostsHonest([], log)
    {
      hide Run, Said, PostsHonest;
      CacheFromReplies(gw, start, calls);
    }

    /** `rest_init`. */
    constructor (gw: string, drivers: SensorDrivers)
      ensures this.gw == gw && this.drivers == drivers
      ensures Abstract() == start == State(EMPTY, drivers.list, []) && Recorded()
    {
      this.gw, this.drivers := gw, drivers;
      start, calls := State(EMPTY, drivers.list, []), [];
      gateway, models, log := Gateway(-1, false, [], []), [], [];
    }

    /** `rest_gatewayinfo` on the cached record: it is zeroed before the read is tried. */
    method GatewayInfo(reply: Option<GatewayReply>) returns (ok: bool)
      modifies this`gateway, this`log
      ensures ok == reply.Some? && log == old(log) + [ReadGateway(reply)]
      ensures gateway == if ok then ParseGateway(reply.value) else ZEROED
    {
      gateway := Gateway(0, false, [], []);
      log := log + [ReadGateway(reply)];
      if reply.None? {
        return false;
      }
      gateway := ParseGateway(reply.value);
      return true;
    }

    /** `_gw_model_get`: a reply without device models still counts as read. */
    method ModelGet(reply: Option<Option<seq<DeviceModel>>>) returns (ok: bool)
      requires models == []
      modifies this`models, this`log
      ensures ok == reply.Some? && log == old(log) + [ReadModels(gateway.model, reply)]
      ensures models == if reply.Some? && reply.value.Some? then reply.value.value else []
    {
      log := log + [ReadModels(gateway.model, reply)];
      if reply.None? {
        return false;
      }
      if reply.value.Some? {
        models := reply.value.value;
      }
      return true;
    }

    /** `_device_model_get`. */
    method DeviceModelGet(id: string) returns (m: Option<DeviceModel>)
      ensures m == FindModel(models, id)
    {
      var i := 0;
      while i < |models|
        invariant i <= |models| && FindModel(models, id) == FindModel(models[i..], id)
      {
        if EqualFold(models[i].id, id) {
          return Some(models[i]);
        }
        i := i + 1;
      }
      return None;
    }

    /** `_sensor_get`. */
    static method SensorGet(sensors: seq<SensorModel>, kind: string) returns (m: Option<SensorModel>)
      ensures m == FindSensor(sensors, kind)
    {
      var i := 0;
      while i < |sensors|
        invariant i <= |sensors| && FindSensor(sensors, kind) == FindSensor(sensors[i..], kind)
      {
        if EqualFold(sensors[i].kind, kind) {
          return Some(sensors[i]);
        }
        i := i + 1;
      }
      return None;
    }

    /** `_is_device_duplicated` and `_is_sensor_duplicated`. */
    static method IsDuplicated(ids: seq<string>, id: string) returns (duplicated: bool)
      ensures duplicated <==> Holds(ids, id)
    {
      var i := 0;
      while i < |ids|
        invariant i <= |ids| && forall k :: 0 <= k < i ==> !EqualFold(ids[k], id)
      {
        if EqualFold(ids[i], id) {
          return true;
        }
        i := i + 1;
      }
      return false;
    }

    /** The opening of both calls: fill the cache where it is empty. */
    method Prepare(a: Answers) returns (ok: bool)
      modifies this`gateway, this`log
      ensures (Abstract(), ok) == FetchGateway(old(Abstract()), a)
    {
      if gateway.model == -1 {
        ok := GatewayInfo(a.gateway);
        return ok;
      }
      return true;
    }

    method PrepareModels(a: Answers) returns (ok: bool)
      modifies this`models, this`log
      ensures (Abstract(), ok) == FetchModels(old(Abstract()), a)
    {
      if |models| == 0 {
        ok := ModelGet(a.models);
        return ok;
      }
      return true;
    }

    /** `rest_device_register`. */
    method DeviceRegister(uid: int32, modelId: string, a: Answers) returns (r: Result)
      modifies this
      ensures (Abstract(), r) == Step(gw, old(Abstract()), RegisterDevice(uid, modelId), a)
      ensures calls == old(calls) + [(RegisterDevice(uid, modelId), a)] && (old(Recorded()) ==> Recorded())
    {
      calls := calls + [(RegisterDevice(uid, modelId), a)];
      RunAppend(gw, start, old(calls), (RegisterDevice(uid, modelId), a));
      hide Run;
      var fetched := Prepare(a);
      if !fetched {
        return Result(FAILED, None);
      }
      if !gateway.discoverable {
        return Result(FAILED, None);
      }
      var modelled := PrepareModels(a);
      if !modelled {
        return Result(FAILED, None);
      }
      var m := DeviceModelGet(modelId);
      if m.None? {
        return Result(FAILED, None);
      }
      r := DeviceRegisterAs(uid, m.value, a);
    }

    /** The second half of `rest_device_register`, once the device model is known. */
    method DeviceRegisterAs(uid: int32, m: DeviceModel, a: Answers) returns (r: Result)
      modifies this`gateway, this`log
      ensures (Abstract(), r) == DevicePost(gw, old(Abstract()), uid, m, a)
    {
      if !m.discoverable {
        return Result(NOT_DISCOVERABLE, None);
      }
      if m.idTemplate.None? {
        return Result(INVALID_TYPE, None);
      }
      var id := DeviceId(m.idTemplate.value, gw, uid, a.past);
      var duplicated := IsDuplicated(gateway.devices, id);
      if duplicated {
        return Result(DUPLICATED, Some(id));
      }
      log := log + [PostDevice(id, m.id, a.accepted, Cache(gateway, models))];
      if !a.accepted {
        return Result(CURL_POST, Some(id));
      }
      gateway := gateway.(devices := gateway.devices + [id]);
      return Result(SUCCESS, Some(id));
    }

    /** `rest_sensor_register`. */
    method SensorRegister(uid: int32, kind: string, deviceId: string, a: Answers) returns (r: Result)
      modifies this, drivers
      ensures (Abstract(), r) == Step(gw, old(Abstract()), RegisterSensor(uid, kind, deviceId), a)
      ensures calls == old(calls) + [(RegisterSensor(uid, kind, deviceId), a)] && (old(Recorded()) ==> Recorded())
    {
      calls := calls + [(RegisterSensor(uid, kind, deviceId), a)];
      RunAppend(gw, start, old(calls), (RegisterSensor(uid, kind, deviceId), a));
      hide Run;
      var fetched := Prepare(a);
      if !fetched {
        return Result(FAILED, None);
      }
      if !gateway.discoverable {
        return Result(NOT_DISCOVERABLE, None);
      }
      var modelled := PrepareModels(a);
      if !modelled {
        return Result(UNKNOWN, None);
      }
      log := log + [ReadDevice(deviceId, a.deviceModel)];
      if a.deviceModel.None? || a.deviceModel.value.None? {
        return Result(FAILED, None);
      }
      var m := DeviceModelGet(a.deviceModel.value.value);
      if m.None? {
        return Result(FAILED, None);
      }
      r := SensorRegisterAs(uid, kind, deviceId, m.value, a);
    }

    /** The second half of `rest_sensor_register`, once the device model is known. */
    method SensorRegisterAs(uid: int32, kind: string, deviceId: string, m: DeviceModel, a: Answers) returns (r: Result)
      modifies this`log, drivers
      ensures (Abstract(), r) == SensorPost(gw, old(Abstract()), uid, kind, deviceId, m, a)
    {
      if !m.discoverable {
        return Result(NOT_DISCOVERABLE, None);
      }
      var sensor := SensorGet(m.sensors, kind);
      if sensor.None? {
        return Result(CURL_READ, None);
      }
      var template := drivers.IdTemplateGet(sensor.value.driverName, a.driver);
      var id := SensorId(template, sensor.value.kind, gw, deviceId, uid);
      var duplicated := IsDuplicated(gateway.sensors, id);
      if duplicated {
        return Result(DUPLICATED, Some(id));
      }
      log := log + [PostSensor(id, m.id, sensor.value.kind, a.accepted, Cache(gateway, models))];
      if !a.accepted {
        return Result(CURL_POST, Some(id));
      }
      return Result(SUCCESS, Some(id));
    }
  }
}

/** When a register call posts, and what it answers when it does not: in terms of the cache it
    starts from and the server's answers. */
module Admission {
  import opened Text
  import opened Ids
  import opened Drivers
  import opened Registry
  import opened Provenance

  // ---------------------------------------------------------------- the fetches

  /** The gateway is known, or is read now, and says that it may be registered on. */
  predicate Open(s: State, a: Answers) {
    if s.cache.gateway.model != -1 then s.cache.gateway.discoverable
    else a.gateway.Some? && (a.gateway.value.autoCreate == Some("Y") || a.gateway.value.autoCreate == Some("y"))
  }

  /** Besides, models are known, or the read of them succeeds. */
  predicate Goes(s: State, a: Answers) {
    Open(s, a) && (s.cache.models != [] || a.models.Some?)
  }

  /** The reads a call starts with. */
  function FirstReads(s: State, a: Answers): seq<Request> {
    (if s.cache.gateway.model == -1 then [ReadGateway(a.gateway)] else [])
    + if Open(s, a) && s.cache.models == [] then [ReadModels(Known(s, a).gateway.model, a.models)] else []
  }

  /** The cache after those reads, of a call that goes on. */
  function Known(s: State, a: Answers): Cache {
    Cache(
      if s.cache.gateway.model != -1 || a.gateway.None? then s.cache.gateway
      else
        var r := a.gateway.value;
        Gateway(if r.model.Some? then r.model.value else -1, true, Given(r.devices), Given(r.sensors)),
      if s.cache.models != [] || a.models.None? then s.cache.models else Given(a.models.value))
  }

  /** Exactly when a call goes on from its fetches, what it then knows, and what it has read. */
  lemma {:induction false} Opening(s: State, a: Answers)
    ensures Prepared(s, a).1 <==> Goes(s, a)
    ensures Goes(s, a) ==> Prepared(s, a).0 == State(Known(s, a), s.drivers, s.log + FirstReads(s, a))
    ensures Prepared(s, a).0.log == s.log + FirstReads(s, a)
  {
    if a.gateway.Some? && a.gateway.value.autoCreate.Some? {
      YesFolds(a.gateway.value.autoCreate.value);
    }
    hide EqualFold;
    assert forall x: seq<Request> :: x + [] == x;
  }

  // ---------------------------------------------------------------- devices

  lemma {:induction false} FirstModelFound(models: seq<DeviceModel>, i: nat, id: string)
    requires FirstModel(models, i, id)
    ensures FindModel(models, id) == Some(models[i])
  {
    if i == 0 {
    } else {
      assert FirstModel(models[1..], i - 1, id);
      FirstModelFound(models[1..], i - 1, id);
    }
  }

  lemma {:induction false} FirstSensorFound(sensors: seq<SensorModel>, i: nat, kind: string)
    requires FirstSensor(sensors, i, kind)
    ensures FindSensor(sensors, kind) == Some(sensors[i])
  {
    if i == 0 {
    } else {
      assert FirstSensor(sensors[1..], i - 1, kind);
      FirstSensorFound(sensors[1..], i - 1, kind);
    }
  }

  lemma {:induction false} HoldsMember(ids: seq<string>, id: string)
    ensures Holds(ids, id) <==> exists x :: x in ids && EqualFold(x, id)
  {
  }

  /** A device call that finds its model, open and with a template, is posted unless the list holds
      the id: the whole outcome. */
  lemma {:induction false} DevicePosted(gw: string, s: State, uid: int32, modelId: string, a: Answers, i: nat)
    requires Goes(s, a) && FirstModel(Known(s, a).models, i, modelId)
    requires Known(s, a).models[i].discoverable && Known(s, a).models[i].idTemplate.Some?
    ensures var known, m := Known(s, a), Known(s, a).models[i];
            var id, log := DeviceId(m.idTemplate.value, gw, uid, a.past), s.log + FirstReads(s, a);
            DeviceStep(gw, s, uid, modelId, a) ==
            if exists x :: x in known.gateway.devices && EqualFold(x, id)
            then (State(known, s.drivers, log), Result(DUPLICATED, Some(id)))
            else
              var posted := log + [PostDevice(id, m.id, a.accepted, known)];
              if a.accepted
              then
                var devices := known.gateway.devices + [id];
                (State(known.(gateway := known.gateway.(devices := devices)), s.drivers, posted),
                 Result(SUCCESS, Some(id)))
              else (State(known, s.drivers, posted), Result(CURL_POST, Some(id)))
  {
    var m := Known(s, a).models[i];
    Opening(s, a);
    DeviceRoute(gw, s, uid, modelId, a);
    FirstModelFound(Known(s, a).models, i, modelId);
    HoldsMember(Known(s, a).gateway.devices, DeviceId(m.idTemplate.value, gw, uid, a.past));
    hide Goes, Known, FirstReads, Prepared, DeviceStep, FindModel, DeviceId, Holds, EqualFold;
  }

  /** Every other outcome of a device call, and when it comes about. */
  lemma {:induction false} DeviceRefused(gw: string, s: State, uid: int32, modelId: string, a: Answers)
    ensures var (t, r) := DeviceStep(gw, s, uid, modelId, a);
            var models := Known(s, a).models;
            && (r.code == FAILED <==>
                  !Goes(s, a) || forall x :: x in models ==> !EqualFold(x.id, modelId))
            && (r.code == NOT_DISCOVERABLE <==>
                  Goes(s, a) && exists i: nat :: FirstModel(models, i, modelId) && !models[i].discoverable)
            && (r.code == INVALID_TYPE <==>
                  Goes(s, a) && exists i: nat :: FirstModel(models, i, modelId) && models[i].discoverable
                                                 && models[i].idTemplate.None?)
            && (r.code in {SUCCESS, CURL_POST, DUPLICATED} <==>
                  Goes(s, a) && exists i: nat :: FirstModel(models, i, modelId) && models[i].discoverable
                                                 && models[i].idTemplate.Some?)
            && (r.code in {FAILED, NOT_DISCOVERABLE, INVALID_TYPE} ==>
                  r.id == None && t.log == s.log + FirstReads(s, a) && t.drivers == s.drivers)
  {
    var models := Known(s, a).models;
    Opening(s, a);
    DeviceRoute(gw, s, uid, modelId, a);
    PreparedReads(gw, s, RegisterDevice(uid, modelId), a);
    hide Known, Goes, FirstReads, Prepared, DeviceStep, DeviceId, Holds, EqualFold, Reads;
    if FindModel(models, modelId).Some? {
      var n := FindModelIsFirst(models, modelId);
      forall i: nat | FirstModel(models, i, modelId) ensures models[i] == models[n] {
        FirstModelFound(models, i, modelId);
      }
    } else {
      assert forall i: nat :: !FirstModel(models, i, modelId);
    }
    hide FindModel, FirstModel;
  }

  // ---------------------------------------------------------------- sensors

  /** A sensor call that finds its model and sensor, the model open, is posted unless the list holds
      the id: the whole outcome. */
  lemma {:induction false} SensorPosted(gw: string, s: State, uid: int32, kind: string, deviceId: string, a: Answers,
                                        i: nat, j: nat)
    requires Goes(s, a) && a.deviceModel.Some? && a.deviceModel.value.Some?
    requires FirstModel(Known(s, a).models, i, a.deviceModel.value.value) && Known(s, a).models[i].discoverable
    requires FirstSensor(Known(s, a).models[i].sensors, j, kind)
    ensures var known, m, x := Known(s, a), Known(s, a).models[i], Known(s, a).models[i].sensors[j];
            var ask := Ask(x.driverName, a.driver);
            var log := s.log + FirstReads(s, a) + [ReadDevice(deviceId, a.deviceModel)];
            var id := SensorId(Template(s.drivers, ask), x.kind, gw, deviceId, uid);
            SensorStep(gw, s, uid, kind, deviceId, a) ==
            if exists y :: y in known.gateway.sensors && EqualFold(y, id)
            then (State(known, Remember(s.drivers, ask), log), Result(DUPLICATED, Some(id)))
            else (State(known, Remember(s.drivers, ask), log + [PostSensor(id, m.id, x.kind, a.accepted, known)]),
                  Result(if a.accepted then SUCCESS else CURL_POST, Some(id)))
  {
    var known, m, x := Known(s, a), Known(s, a).models[i], Known(s, a).models[i].sensors[j];
    Opening(s, a);
    SensorRoute(gw, s, uid, kind, deviceId, a);
    FirstModelFound(known.models, i, a.deviceModel.value.value);
    FirstSensorFound(m.sensors, j, kind);
    HoldsMember(known.gateway.sensors,
                SensorId(Template(s.drivers, Ask(x.driverName, a.driver)), x.kind, gw, deviceId, uid));
    hide Goes, Known, FirstReads, Prepared, SensorStep, FindModel, FindSensor, SensorId, Holds, EqualFold, Template,
      Remember;
  }

  /** The server named the device's model, and it is the `i`-th. */
  ghost predicate Named(s: State, a: Answers, i: nat) {
    a.deviceModel.Some? && a.deviceModel.value.Some? && FirstModel(Known(s, a).models, i, a.deviceModel.value.value)
  }

  lemma {:induction false} SensorStopped(gw: string, s: State, uid: int32, kind: string, deviceId: string, a: Answers)
    requires !Goes(s, a)
    ensures SensorStep(gw, s, uid, kind, deviceId, a) ==
            (Prepared(s, a).0,
             Result(if s.cache.gateway.model == -1 && a.gateway.None? then FAILED
                    else if !Open(s, a) then NOT_DISCOVERABLE
                    else UNKNOWN, None))
    ensures Prepared(s, a).0.drivers == s.drivers
  {
    if a.gateway.Some? && a.gateway.value.autoCreate.Some? {
      YesFolds(a.gateway.value.autoCreate.value);
    }
    hide EqualFold, SensorPost, FindModel;
  }

  /** Every other outcome of a sensor call, and when it comes about. */
  lemma {:induction false} SensorRefused(gw: string, s: State, uid: int32, kind: string, deviceId: string, a: Answers)
    ensures var (t, r) := SensorStep(gw, s, uid, kind, deviceId, a);
            var models := Known(s, a).models;
            && (r.code == FAILED <==>
                  (s.cache.gateway.model == -1 && a.gateway.None?) || (Goes(s, a) && forall i: nat :: !Named(s, a, i)))
            && (r.code == UNKNOWN <==> Open(s, a) && !Goes(s, a))
            && (r.code == NOT_DISCOVERABLE <==>
                  || (!Open(s, a) && (s.cache.gateway.model != -1 || a.gateway.Some?))
                  || (Goes(s, a) && exists i: nat :: Named(s, a, i) && !models[i].discoverable))
            && (r.code == CURL_READ <==>
                  Goes(s, a) && exists i: nat :: Named(s, a, i) && models[i].discoverable
                                                 && forall x :: x in models[i].sensors ==> !EqualFold(x.kind, kind))
            && (r.code in {FAILED, UNKNOWN, NOT_DISCOVERABLE, CURL_READ} ==>
                  && r.id == None && t.drivers == s.drivers
                  && t.log == s.log + FirstReads(s, a)
                              + if Goes(s, a) then [ReadDevice(deviceId, a.deviceModel)] else [])
  {
    var models := Known(s, a).models;
    Opening(s, a);
    if Goes(s, a) {
      SensorRoute(gw, s, uid, kind, deviceId, a);
      if a.deviceModel.Some? && a.deviceModel.value.Some? && FindModel(models, a.deviceModel.value.value).Some? {
        var n := FindModelIsFirst(models, a.deviceModel.value.value);
        assert Named(s, a, n);
        forall i: nat | Named(s, a, i) ensures models[i] == models[n] {
          FirstModelFound(models, i, a.deviceModel.value.value);
        }
      } else {
        assert forall i: nat :: !Named(s, a, i);
      }
    } else {
      SensorStopped(gw, s, uid, kind, deviceId, a);
    }
    hide Known, Open, FirstReads, Prepared, SensorStep, FindModel, FirstModel, SensorId, Holds, EqualFold, Template,
      Remember;
  }
}

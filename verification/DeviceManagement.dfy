/** `device_management.c`: requests from the platform, dispatched by method name to the user's
    callbacks, each answered by one reply. The JSON parser is outside the model: a request is
    what `json-c` hands over. */
module DeviceManagement {
  import opened Text
  import opened Payloads
  import opened Telemetry

  /** A member of `params`: its text, and its value as a 64-bit integer. */
  datatype Field = Field(text: CText, number: int)

  datatype Request = Request(id: Option<CText>, name: Option<CText>, params: Option<map<string, Field>>)

  /** A call of one of the user's callbacks, with its arguments. */
  datatype Invocation =
    | Actuating(id: CText, cmd: CText, options: CText)
    | TimeSync(time: uint64)
    | PropertySet(interval: int32)
    | PowerOff
    | Reboot
    | Restart
    | Upgrade
    | Version

  /** What a callback returns, and the text it leaves in the message buffer. Every request comes
      with the verdict of the callback it may run, so callbacks may answer as they like each time. */
  datatype Verdict = Verdict(ok: bool, message: CText)

  /** Which callbacks the user has set. */
  datatype Ops = Ops(
    actuating: bool, timesync: bool, propertySet: bool, poweroff: bool,
    reboot: bool, restart: bool, upgrade: bool, version: bool)

  datatype Service = ControlActuator | SyncTime | SetProperty | DoPowerOff | DoReboot | DoRestart | SwUpdate | SwInfo

  /** `_services_ops`. */
  const SERVICES: seq<(string, Service)> := [
    ("controlActuator", ControlActuator), ("timeSync", SyncTime), ("setProperty", SetProperty),
    ("poweroff", DoPowerOff), ("reboot", DoReboot), ("restart", DoRestart), ("swUpdate", SwUpdate), ("swInfo", SwInfo)]

  /** The effect of one handler: the callback it made, if any, and what it reports. */
  datatype Outcome = Outcome(call: Option<Invocation>, ok: bool, message: CText)

  const REFUSED := Outcome(None, false, "")

  // ---------------------------------------------------------------- what a request should do

  /** The wire name a callback invocation belongs to. */
  function NameOf(call: Invocation): string {
    match call
    case Actuating(_, _, _) => "controlActuator"
    case TimeSync(_) => "timeSync"
    case PropertySet(_) => "setProperty"
    case PowerOff => "poweroff"
    case Reboot => "reboot"
    case Restart => "restart"
    case Upgrade => "swUpdate"
    case Version => "swInfo"
  }

  /** The user has set the callback of an invocation. */
  predicate IsSet(ops: Ops, call: Invocation) {
    match call
    case Actuating(_, _, _) => ops.actuating
    case TimeSync(_) => ops.timesync
    case PropertySet(_) => ops.propertySet
    case PowerOff => ops.poweroff
    case Reboot => ops.reboot
    case Restart => ops.restart
    case Upgrade => ops.upgrade
    case Version => ops.version
  }

  function Wrap32(n: int): int32 {
    (n + 0x8000_0000) % 0x1_0000_0000 - 0x8000_0000
  }

  function Wrap64(n: int): uint64 {
    n % 0x1_0000_0000_0000_0000
  }

  /** The invocation a request spells out: a known name with all the parameters it needs. */
  function Asked(name: string, params: map<string, Field>): Option<Invocation> {
    if name == "controlActuator" then
      if "id" in params && "cmd" in params && "options" in params then
        Some(Actuating(params["id"].text, params["cmd"].text, params["options"].text))
      else None
    else if name == "timeSync" then
      if "time" in params then Some(TimeSync(Wrap64(params["time"].number))) else None
    else if name == "setProperty" then
      if "reportInterval" in params then Some(PropertySet(Wrap32(params["reportInterval"].number))) else None
    else if name == "poweroff" then Some(PowerOff)
    else if name == "reboot" then Some(Reboot)
    else if name == "restart" then Some(Restart)
    else if name == "swUpdate" then Some(Upgrade)
    else if name == "swInfo" then Some(Version)
    else None
  }

  /** The request runs the callback it asks for, if the user set one, and nothing otherwise. */
  function Expected(ops: Ops, name: string, params: Option<map<string, Field>>, v: Verdict): Outcome {
    match Asked(name, if params.None? then map[] else params.value)
    case None => REFUSED
    case Some(call) => if IsSet(ops, call) then Outcome(Some(call), v.ok, v.message) else REFUSED
  }

  // ---------------------------------------------------------------- replies

  datatype Reply = Result(id: string, message: string) | Error(id: string, code: int, message: string)

  function ReplyText(r: Reply): string {
    match r
    case Result(id, message) => "{\"id\":\"" + id + "\",\"result\":\"" + message + "\"}"
    case Error(id, code, message) =>
      "{\"id\":\"" + id + "\",\"error\":\"code\":" + Decimal(code) + ",\"message\":\"" + message + "\"}"
  }

  /** The reply a request with an id gets. */
  function ReplyTo(ops: Ops, request: Request, v: Verdict): Reply
    requires request.id.Some?
  {
    var id := request.id.value;
    match request.name
    case None => Error(id, -32601, "missing method field")
    case Some(name) =>
      var o := Expected(ops, name, request.params, v);
      if o.ok then Result(id, o.message) else Error(id, -32000, o.message)
  }

  /** The callback a request with an id runs, if any. */
  function Calls(ops: Ops, request: Request): seq<Invocation> {
    if request.id.None? || request.name.None? then []
    else
      match Asked(request.name.value, Params(request))
      case None => []
      case Some(call) => if IsSet(ops, call) then [call] else []
  }

  function Params(request: Request): map<string, Field> {
    if request.params.None? then map[] else request.params.value
  }

  function StripPrefix(t: string, prefix: string): Option<string> {
    if prefix <= t then Some(t[|prefix|..]) else None
  }

  function StripEnd(t: string): Option<string> {
    if |t| >= 2 && t[|t| - 2..] == "\"}" then Some(t[..|t| - 2]) else None
  }

  function DecodeError(id: string, t: string): Option<Reply> {
    match Until(t, ',')
    case None => None
    case Some((code, rest)) =>
      match (ParseDecimal(code), StripPrefix(rest, "\"message\":\""))
      case (Some(n), Some(body)) =>
        (match StripEnd(body)
         case None => None
         case Some(message) => Some(Error(id, n, message)))
      case _ => None
  }

  /** The platform's reading of a reply. */
  function DecodeReply(t: string): Option<Reply> {
    match StripPrefix(t, "{\"id\":\"")
    case None => None
    case Some(t1) =>
      match Until(t1, '"')
      case None => None
      case Some((id, t2)) =>
        match StripPrefix(t2, ",\"result\":\"")
        case Some(t3) =>
          (match StripEnd(t3)
           case None => None
           case Some(message) => Some(Result(id, message)))
        case None =>
          (match StripPrefix(t2, ",\"error\":\"code\":")
           case None => None
           case Some(t3) => DecodeError(id, t3))
  }

  lemma {:induction false} StripRoundTrip(prefix: string, t: string)
    ensures StripPrefix(prefix + t, prefix) == Some(t)
    ensures StripEnd(t + "\"}") == Some(t)
  {
    assert (prefix + t)[|prefix|..] == t;
    assert (t + "\"}")[..|t|] == t && (t + "\"}")[|t|..] == "\"}";
  }

  lemma {:induction false} ResultRoundTrip(id: string, message: string)
    requires '"' !in id
    ensures DecodeReply(ReplyText(Result(id, message))) == Some(Result(id, message))
  {
    var t3 := message + "\"}";
    var t2 := ",\"result\":\"" + t3;
    var t1 := id + ['"'] + t2;
    assert ReplyText(Result(id, message)) == "{\"id\":\"" + t1 by {
      assert "\",\"result\":\"" == ['"'] + ",\"result\":\"";
      assert id + ("\",\"result\":\"" + t3) == t1;
    }
    StripRoundTrip("{\"id\":\"", t1);
    UntilFirst(id, '"', t2);
    StripRoundTrip(",\"result\":\"", t3);
    StripRoundTrip("", message);
  }

  lemma {:induction false} ErrorText(id: string, code: string, message: string)
    ensures "{\"id\":\"" + id + "\",\"error\":\"code\":" + code + ",\"message\":\"" + message + "\"}" ==
            "{\"id\":\"" +
            (id + ['"'] + (",\"error\":\"code\":" + (code + [','] + ("\"message\":\"" + (message + "\"}")))))
  {
    var t5 := "\"message\":\"" + (message + "\"}");
    assert ",\"message\":\"" == [','] + "\"message\":\"";
    assert ",\"message\":\"" + message + "\"}" == [','] + t5;
    assert "\",\"error\":\"code\":" == ['"'] + ",\"error\":\"code\":";
    assert "{\"id\":\"" + id + "\",\"error\":\"code\":" + code + ",\"message\":\"" + message + "\"}" ==
           "{\"id\":\"" + (id + ("\",\"error\":\"code\":" + (code + (",\"message\":\"" + message + "\"}"))));
    assert id + ("\",\"error\":\"code\":" + (code + ([','] + t5))) ==
           id + ['"'] + (",\"error\":\"code\":" + (code + [','] + t5));
  }

  lemma {:induction false} ErrorBody(id: string, code: int, message: string)
    ensures DecodeError(id, Decimal(code) + [','] + ("\"message\":\"" + (message + "\"}"))) ==
            Some(Error(id, code, message))
  {
    DecimalChars(code);
    DecimalRoundTrip(code);
    hide Decimal, ParseDecimal, Until;
    UntilFirst(Decimal(code), ',', "\"message\":\"" + (message + "\"}"));
    StripRoundTrip("\"message\":\"", message + "\"}");
    StripRoundTrip("", message);
  }

  lemma {:induction false} ErrorRoundTrip(id: string, code: int, message: string)
    requires '"' !in id
    ensures DecodeReply(ReplyText(Error(id, code, message))) == Some(Error(id, code, message))
  {
    var t3 := Decimal(code) + [','] + ("\"message\":\"" + (message + "\"}"));
    var t2 := ",\"error\":\"code\":" + t3;
    ErrorText(id, Decimal(code), message);
    ErrorBody(id, code, message);
    hide Decimal, DecodeError, Until;
    StripRoundTrip("{\"id\":\"", id + ['"'] + t2);
    UntilFirst(id, '"', t2);
    assert StripPrefix(t2, ",\"result\":\"") == None by {
      assert t2[1] == '"' && t2[2] == 'e';
    }
    StripRoundTrip(",\"error\":\"code\":", t3);
  }

  /** An id that is read back never holds a quote. */
  lemma {:induction false} DecodedId(t: string)
    requires DecodeReply(t).Some?
    ensures '"' !in DecodeReply(t).value.id
  {
  }

  /** A reply can be read back, with the id of the request it answers, exactly when that id holds
      no quote: ids are printed raw. */
  lemma {:induction false} ReplyMeaning(r: Reply)
    ensures DecodeReply(ReplyText(r)) == Some(r) <==> '"' !in r.id
  {
    if '"' in r.id {
      if DecodeReply(ReplyText(r)).Some? {
        DecodedId(ReplyText(r));
      }
    } else {
      match r
      case Result(id, message) => ResultRoundTrip(id, message);
      case Error(id, code, message) => ErrorRoundTrip(id, code, message);
    }
  }

  lemma {:induction false} BrokenId(a: string, rest: string)
    requires '"' !in a && rest != "" && rest[0] != ','
    ensures DecodeReply("{\"id\":\"" + (a + ['"'] + rest)) == None
  {
    StripRoundTrip("{\"id\":\"", a + ['"'] + rest);
    UntilFirst(a, '"', rest);
    hide Until;
  }

  lemma {:induction false} QuoteAssoc(a: string, b: string, rest: string)
    requires b != ""
    ensures (a + ['"'] + b) + ['"'] + rest == a + ['"'] + (b + ['"'] + rest) && (b + ['"'] + rest)[0] == b[0]
  {
  }

  lemma {:induction false} BrokenError(a: string, b: string, code: int, message: string)
    requires '"' !in a && b != "" && b[0] != ','
    ensures DecodeReply(ReplyText(Error(a + ['"'] + b, code, message))) == None
  {
    var digits := Decimal(code);
    var rest := ",\"error\":\"code\":" + (digits + [','] + ("\"message\":\"" + (message + "\"}")));
    ErrorText(a + ['"'] + b, digits, message);
    assert ReplyText(Error(a + ['"'] + b, code, message)) == "{\"id\":\"" + ((a + ['"'] + b) + ['"'] + rest);
    hide *;
    QuoteAssoc(a, b, rest);
    BrokenId(a, b + ['"'] + rest);
  }

  /** The reply to a request with the id `a"b` cannot be read at all. */
  lemma {:induction false} QuotedIdFails(ops: Ops, v: Verdict)
    ensures DecodeReply(ReplyText(ReplyTo(ops, Request(Some("a\"b"), None, None), v))) == None
  {
    assert ReplyTo(ops, Request(Some("a\"b"), None, None), v) == Error("a\"b", -32601, "missing method field");
    hide *;
    assert "a\"b" == "a" + ['"'] + "b";
    BrokenError("a", "b", -32601, "missing method field");
  }

  /** One request with an id: the reply has that id; at most one callback runs, the one set for
      the method that was named; the reply is a result exactly when it ran and returned true. */
  lemma {:induction false} RpcLaws(ops: Ops, request: Request, v: Verdict)
    requires request.id.Some?
    ensures ReplyTo(ops, request, v).id == request.id.value
    ensures |Calls(ops, request)| <= 1
    ensures forall call :: call in Calls(ops, request) ==> Some(NameOf(call)) == request.name && IsSet(ops, call)
    ensures ReplyTo(ops, request, v).Result? <==> Calls(ops, request) != [] && v.ok
    ensures Calls(ops, request) != [] ==> ReplyTo(ops, request, v).message == v.message
  {
  }

  /** What the platform reads in the reply to a request whose id holds no quote: -32601 without a
      method, -32000 when no callback ran or the one that ran returned false. */
  lemma {:induction false} ReplyReads(ops: Ops, request: Request, v: Verdict)
    requires request.id.Some? && '"' !in request.id.value
    ensures var id := request.id.value;
            DecodeReply(ReplyText(ReplyTo(ops, request, v))) ==
            if request.name.None? then Some(Error(id, -32601, "missing method field"))
            else if Calls(ops, request) == [] then Some(Error(id, -32000, ""))
            else if v.ok then Some(Result(id, v.message))
            else Some(Error(id, -32000, v.message))
  {
    ReplyMeaning(ReplyTo(ops, request, v));
    hide DecodeReply, ReplyText, Asked;
  }

  /** Which requests run no callback: those that name no method of the table, those that lack a
      parameter, and those whose callback the user has not set. */
  lemma {:induction false} NoCallback(ops: Ops, request: Request)
    requires request.id.Some? && request.name.Some?
    ensures var name, params := request.name.value, Params(request);
            Calls(ops, request) == [] <==>
            || name !in {"controlActuator", "timeSync", "setProperty", "poweroff",
                         "reboot", "restart", "swUpdate", "swInfo"}
            || (name == "controlActuator" &&
                ("id" !in params || "cmd" !in params || "options" !in params || !ops.actuating))
            || (name == "timeSync" && ("time" !in params || !ops.timesync))
            || (name == "setProperty" && ("reportInterval" !in params || !ops.propertySet))
            || (name == "poweroff" && !ops.poweroff)
            || (name == "reboot" && !ops.reboot)
            || (name == "restart" && !ops.restart)
            || (name == "swUpdate" && !ops.upgrade)
            || (name == "swInfo" && !ops.version)
  {
  }

  /** The callback that runs is the one of the named method, and its arguments are the request's
      parameters, the numbers cut to 64 and 32 bits. */
  lemma {:induction false} CallbackArguments(ops: Ops, request: Request)
    requires Calls(ops, request) != []
    ensures request.name.Some?
    ensures var name, params := request.name.value, Params(request);
            match Calls(ops, request)[0]
            case Actuating(id, cmd, options) =>
              && name == "controlActuator" && "id" in params && "cmd" in params && "options" in params
              && id == params["id"].text && cmd == params["cmd"].text && options == params["options"].text
            case TimeSync(time) =>
              && name == "timeSync" && "time" in params
              && exists k: int :: time + 0x1_0000_0000_0000_0000 * k == params["time"].number
            case PropertySet(interval) =>
              && name == "setProperty" && "reportInterval" in params
              && exists k: int :: interval + 0x1_0000_0000 * k == params["reportInterval"].number
            case PowerOff => name == "poweroff"
            case Reboot => name == "reboot"
            case Restart => name == "restart"
            case Upgrade => name == "swUpdate"
            case Version => name == "swInfo"
  {
    var params := Params(request);
    if "time" in params {
      WrapLaws(params["time"].number);
    }
    if "reportInterval" in params {
      WrapLaws(params["reportInterval"].number);
    }
    hide Wrap32, Wrap64;
  }

  /** Cutting to a width subtracts a whole number of its range. */
  lemma {:induction false} WrapLaws(n: int)
    ensures Wrap64(n) == n - 0x1_0000_0000_0000_0000 * (n / 0x1_0000_0000_0000_0000)
    ensures Wrap32(n) == n - 0x1_0000_0000 * ((n + 0x8000_0000) / 0x1_0000_0000)
  {
  }

  lemma {:induction false} FiveDigits(n: nat)
    requires 10000 <= n < 100000
    ensures |Digits(n)| == 5
  {
    assert |Digits(n / 1000)| == 2;
    assert n / 100 / 10 == n / 1000 && |Digits(n / 100)| == 3;
    assert n / 10 / 10 == n / 100 && |Digits(n / 10)| == 4;
  }

  lemma {:induction false} ErrorLength(id: string, code: int, message: string)
    ensures |ReplyText(Error(id, code, message))| == |id| + |message| + 38 + |Decimal(code)|
  {
    hide Decimal;
  }

  lemma {:induction false} ReplyLengths(id: string, message: string)
    ensures |ReplyText(Result(id, message))| == |id| + |message| + 21
    ensures |ReplyText(Error(id, -32000, message))| == |id| + |message| + 44
    ensures |ReplyText(Error(id, -32601, message))| == |id| + |message| + 44
  {
    ErrorLength(id, -32000, message);
    ErrorLength(id, -32601, message);
    FiveDigits(32000);
    FiveDigits(32601);
    hide Digits;
  }

  /** Exactly which replies fit the scratch buffer: a result while id and message have at most 490
      bytes, an error after a callback 467, an error without one an id of 467, and the error for a
      missing method an id of 447. Callbacks are offered a message buffer of 2048 bytes. */
  lemma {:induction false} ReplyFits(ops: Ops, request: Request, v: Verdict)
    requires request.id.Some?
    ensures var id, fits := request.id.value, |ReplyText(ReplyTo(ops, request, v))| < BLOCK;
            fits <==>
            if request.name.None? then |id| <= 447
            else if Calls(ops, request) == [] then |id| <= 467
            else |id| + |v.message| <= if v.ok then 490 else 467
  {
    var reply := ReplyTo(ops, request, v);
    ReplyLengths(reply.id, reply.message);
    hide ReplyText, Asked;
  }

  /** A failing callback may overflow the buffer with a message a succeeding one may leave. */
  lemma {:induction false} FailureOverflows(ops: Ops, message: CText)
    requires |message| == 467 && ops.reboot
    ensures var request := Request(Some("1"), Some("reboot"), None);
            && |ReplyText(ReplyTo(ops, request, Verdict(false, message)))| == BLOCK
            && |ReplyText(ReplyTo(ops, request, Verdict(true, message)))| == BLOCK - 23
  {
    ReplyLengths("1", message);
    hide ReplyText, Decimal;
  }

  // ---------------------------------------------------------------- the dispatcher

  /** What each row of the table does. */
  function Handled(ops: Ops, service: Service, params: Option<map<string, Field>>, v: Verdict): Outcome {
    match service
    case ControlActuator => Expected(ops, "controlActuator", params, v)
    case SyncTime => Expected(ops, "timeSync", params, v)
    case SetProperty => Expected(ops, "setProperty", params, v)
    case DoPowerOff => Expected(ops, "poweroff", params, v)
    case DoReboot => Expected(ops, "reboot", params, v)
    case DoRestart => Expected(ops, "restart", params, v)
    case SwUpdate => Expected(ops, "swUpdate", params, v)
    case SwInfo => Expected(ops, "swInfo", params, v)
  }

  /** `struct device_management`. */
  class Manager {
    const ops: Ops
    ghost var calls: seq<Invocation>

    constructor (ops: Ops)
      ensures this.ops == ops && calls == []
    {
      this.ops := ops;
      calls := [];
    }

    /** The call through the user's function pointer: `answer` is what it returns this time. */
    method Invoke(call: Invocation, answer: Verdict) returns (v: Verdict)
      requires IsSet(ops, call)
      modifies this`calls
      ensures v == answer && calls == old(calls) + [call]
    {
      calls := calls + [call];
      v := answer;
    }

    /** `_version`, `_upgrade`, `_restart`, `_reboot` and `_poweroff`. */
    method Plain(isSet: bool, call: Invocation, answer: Verdict) returns (v: Verdict)
      requires isSet == IsSet(ops, call)
      modifies this`calls
      ensures !isSet ==> v == Verdict(false, "") && calls == old(calls)
      ensures isSet ==> v == answer && calls == old(calls) + [call]
    {
      if !isSet {
        return Verdict(false, "");
      }
      v := Invoke(call, answer);
    }

    /** `_property_set`. */
    method PropertySetter(params: Option<map<string, Field>>, answer: Verdict) returns (v: Verdict)
      modifies this`calls
      ensures var o := Handled(ops, SetProperty, params, answer);
              v == Verdict(o.ok, o.message) && calls == old(calls) + if o.call.None? then [] else [o.call.value]
    {
      if !ops.propertySet {
        return Verdict(false, "");
      }
      if params.None? || "reportInterval" !in params.value {
        return Verdict(false, "");
      }
      v := Invoke(PropertySet(Wrap32(params.value["reportInterval"].number)), answer);
    }

    /** `_timesync`. */
    method TimeSyncer(params: Option<map<string, Field>>, answer: Verdict) returns (v: Verdict)
      modifies this`calls
      ensures var o := Handled(ops, SyncTime, params, answer);
              v == Verdict(o.ok, o.message) && calls == old(calls) + if o.call.None? then [] else [o.call.value]
    {
      if !ops.timesync {
        return Verdict(false, "");
      }
      if params.None? || "time" !in params.value {
        return Verdict(false, "");
      }
      v := Invoke(TimeSync(Wrap64(params.value["time"].number)), answer);
    }

    /** `_actuating`. */
    method Actuator(params: Option<map<string, Field>>, answer: Verdict) returns (v: Verdict)
      modifies this`calls
      ensures var o := Handled(ops, ControlActuator, params, answer);
              v == Verdict(o.ok, o.message) && calls == old(calls) + if o.call.None? then [] else [o.call.value]
    {
      if !ops.actuating {
        return Verdict(false, "");
      }
      if params.None? || "id" !in params.value {
        return Verdict(false, "");
      }
      if "cmd" !in params.value {
        return Verdict(false, "");
      }
      if "options" !in params.value {
        return Verdict(false, "");
      }
      var p := params.value;
      v := Invoke(Actuating(p["id"].text, p["cmd"].text, p["options"].text), answer);
    }

    /** The call through the function pointer of a table row. */
    method Serve(service: Service, params: Option<map<string, Field>>, answer: Verdict) returns (v: Verdict)
      modifies this`calls
      ensures var o := Handled(ops, service, params, answer);
              v == Verdict(o.ok, o.message) && calls == old(calls) + if o.call.None? then [] else [o.call.value]
    {
      match service {
        case ControlActuator => v := Actuator(params, answer);
        case SyncTime => v := TimeSyncer(params, answer);
        case SetProperty => v := PropertySetter(params, answer);
        case DoPowerOff => v := Plain(ops.poweroff, PowerOff, answer);
        case DoReboot => v := Plain(ops.reboot, Reboot, answer);
        case DoRestart => v := Plain(ops.restart, Restart, answer);
        case SwUpdate => v := Plain(ops.upgrade, Upgrade, answer);
        case SwInfo => v := Plain(ops.version, Version, answer);
      }
    }

    /** The loop over the table: the first row with the name, or none. */
    method Lookup(name: string, params: Option<map<string, Field>>, answer: Verdict) returns (v: Verdict)
      modifies this`calls
      ensures var o := Expected(ops, name, params, answer);
              v == Verdict(o.ok, o.message) && calls == old(calls) + if o.call.None? then [] else [o.call.value]
    {
      v := Verdict(false, "");
      var i := 0;
      while i < |SERVICES|
        invariant i <= |SERVICES| && calls == old(calls) && v == Verdict(false, "")
        invariant forall k :: 0 <= k < i ==> SERVICES[k].0 != name
      {
        if SERVICES[i].0 == name {
          RowMeaning(ops, i, params, answer);
          v := Serve(SERVICES[i].1, params, answer);
          return;
        }
        i := i + 1;
      }
      UnknownName(name, if params.None? then map[] else params.value);
    }

    /** `device_management_do`: NULL for a payload that does not parse or has no id, and one
        reply otherwise. */
    method Do(request: Option<Request>, answer: Verdict) returns (result: Payload?)
      requires request.Some? && request.value.id.Some? ==> |ReplyText(ReplyTo(ops, request.value, answer))| < BLOCK
      modifies this`calls
      ensures result == null <==> request.None? || request.value.id.None?
      ensures result == null ==> calls == old(calls)
      ensures result != null ==>
                && fresh(result) && fresh(result.Repr) && result.Valid()
                && result.text == ReplyText(ReplyTo(ops, request.value, answer))
                && calls == old(calls) + Calls(ops, request.value)
    {
      hide ReplyText, Asked;
      if request.None? {
        return null;
      }
      var r := request.value;
      if r.id.None? {
        return null;
      }
      if r.name.None? {
        result := Print(Error(r.id.value, -32601, "missing method field"));
        return;
      }
      var v := Lookup(r.name.value, r.params, answer);
      result := Print(if v.ok then Result(r.id.value, v.message) else Error(r.id.value, -32000, v.message));
    }
  }

  /** A reply printed into a buffer of its own. */
  method Print(r: Reply) returns (result: Payload)
    requires '\0' !in r.id && '\0' !in r.message && |ReplyText(r)| < BLOCK
    ensures fresh(result) && fresh(result.Repr) && result.Valid() && result.text == ReplyText(r) && result.bytes != null
  {
    ReplyHasNoNul(r);
    hide ReplyText;
    result := new Payload();
    var size := result.Packetize(0, ReplyText(r));
  }

  lemma {:induction false} RowMeaning(ops: Ops, i: nat, params: Option<map<string, Field>>, v: Verdict)
    requires i < |SERVICES|
    ensures Handled(ops, SERVICES[i].1, params, v) == Expected(ops, SERVICES[i].0, params, v)
  {
  }

  lemma {:induction false} UnknownName(name: string, params: map<string, Field>)
    requires forall k :: 0 <= k < |SERVICES| ==> SERVICES[k].0 != name
    ensures Asked(name, params) == None
  {
    assert SERVICES[0].0 != name && SERVICES[1].0 != name && SERVICES[2].0 != name && SERVICES[3].0 != name;
    assert SERVICES[4].0 != name && SERVICES[5].0 != name && SERVICES[6].0 != name && SERVICES[7].0 != name;
  }

  lemma {:induction false} ReplyHasNoNul(r: Reply)
    requires '\0' !in r.id && '\0' !in r.message
    ensures '\0' !in ReplyText(r)
  {
    if r.Error? {
      DecimalChars(r.code);
    }
  }
}

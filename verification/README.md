# Verified model of the Thing+ embedded library

The Thing+ library connects a gateway to the Thing+ cloud platform. Over MQTT it publishes sensor
readings and statuses and answers remote procedure calls; over HTTP it registers devices and sensors.
This project models the parts where that work is done and proves what they promise. Check it with
`dafny verify dfyconfig.toml`.

## What is modelled

**Telemetry.** `Rings` is the intrusive circular list of `list.h` on real `next`/`prev` fields, with the
sequence of entries as ghost state. `Lists` runs any mix of its operations over any number of rings and
shows that the pointers follow a map from heads to sequences, in which every node has exactly one place.
`HashChains` does the same for the single-headed list, whose nodes name the slot that points at them.
`Payloads` is the growing `char *` of `packetize.c`. `Grouping` says what a stable group-by is, and `Values`
shows that the ring of growable arrays built by `values.c` holds exactly that. `Telemetry` gives the wire
grammar of sensor data twice, as a printer and as a decoder written from the protocol documents, and proves
that decoding a published message returns the grouped input, whichever of the two routes was taken, if and
only if the ids and values are free of the characters that route reserves.
`Publishing` verifies the printing loops against the printer. `Status` does for status messages what
`Telemetry` does for data.

**Connection.** `Sessions` is a state machine: every callback and API call is one step, and the calls made
to the outside world are a trace. Its laws hold of every run, and say what the platform reads in it. `Mqtt` is
the object behind the API; each of its methods is proved to make exactly one step of that machine, and the object
keeps a ghost list of the events it went through, so that the laws of runs are laws of the object.

**Remote procedure calls.** `DeviceManagement` is the dispatcher with its table, its handlers and its replies. What
the user's callback answers comes with each request.

**Registration.** `Registry` is a state machine over the cached gateway and gateway model; the server is an
oracle, and each call comes with what the server would answer to every request the call may make. The log of
requests keeps those answers, and `Provenance` shows that what a client has cached is, in every run, what the answers
in its log say by themselves. `Admission` says exactly when a call posts, and which answer it gives otherwise.
`Rest` is the object that makes those steps and records them, `Drivers` the memo table of sensor drivers, and `Ids`
the ids built from templates.

**Streams.** The accumulator of HTTP bodies and the polling loop of the people counter.

`Text` holds what C strings need: splitting, decimals, `strcasecmp`. A `char *` that the code compares by
address is a `CString` object, so two equal texts can be different pointers; this matters because the
single-sensor test compares pointers while the grouping compares texts.

## Where the code and its documents differ

The model follows the code.

- The `on` message of a new connection is published without the retain flag
  (`library/src/mqtt/mqtt.c:96`), while `docs/gateway/mqttProtocol.md:85-87` asks for a retained one. The
  trace does not record the flag.
- A status carries the time until which it is valid, not a duration
  (`library/src/mqtt/mqtt.c:355-364` against `docs/gateway/mqttProtocol.md:74`).
- Times from 2^63 on are printed as negative numbers, because `%lld` is given an unsigned number
  (`library/src/mqtt/mqtt.c:124`). The decoder undoes that, so no time is lost.
- Under every sensor template but `{type}-{gatewayId}-{sequence}` and `{gatewayId}` the id is
  `device-type-uid` (`library/src/rest/rest.c:389-398`); `docs/gateway/id.md:11` describes a template without the
  type.
- An error reply puts `"code":` directly after `"error":` (`library/src/mqtt/device_management.c:196-198`), so it
  is no JSON object. Replies are read back by the grammar that is printed.

## What turned out not to hold

- A user callback is offered a message buffer of 2048 bytes, but its message is printed into a reply through a
  512-byte scratch buffer. The reply fits exactly when id and message have together at most 490 bytes after a
  callback that returns true, 467 after one that returns false; without a callback the id may have 467 bytes,
  and 447 when the method is missing (`DeviceManagement.ReplyFits`). A message of 467 bytes under a one-byte id
  fits or overflows depending on what the callback returns (`DeviceManagement.FailureOverflows`).
- A reply can be read back exactly when the id of its request has no quote, because the id is printed as it is
  (`DeviceManagement.ReplyMeaning`, `Sessions.RequestMeaning`). The request id `a"b` gets a reply that cannot be
  read at all (`DeviceManagement.QuotedIdFails`).
- A published message is read back as it was meant exactly when its route can carry it. One comma in a value, or
  one slash in the gateway's id, is enough to fail; a slash in a sensor's id fails only on the single-sensor
  route, a quote in an id or a closing bracket in a value only on the grouped one (`Telemetry.ValueMeaning`; the value
  `1,5` is an input that fails: `Telemetry.CommaInValueFails`).
  In status messages a slash in an id fails only without the gateway among the things, a comma only with it
  (`Status.StatusMeaning`, `Status.SlashInIdFails`). Presence messages, and the topics of requests and replies, name
  the gateway exactly when its id has no slash (`Sessions.PresenceMeaning`, `Sessions.RequestTopicParts`).
- A device id fits its field for every address exactly when the gateway id has at most 115 bytes
  (`Ids.DeviceIdFits`), and ids tell addresses apart exactly when the template is
  `{gatewayId}-{deviceAddress}` (`Ids.AddressesDistinguished`); `Ids.DeviceIdExamples` has an input for each
  failure. A sensor id fits when device and type have together at most 114 bytes, under
  `{type}-{gatewayId}-{sequence}` type and gateway id, and under `{gatewayId}` the gateway id 127
  (`Ids.SensorIdFits`).
- A device registered once is refused ever after, whatever is called in between and whatever the server
  answers, exactly when the cached gateway has a model number other than -1: otherwise the cache counts as empty
  and is fetched again (`Registry.RepeatIsDuplicate`, `Registry.RepeatCanPostAgain`).
- A sensor registered again is posted again with the same id, whatever is called in between, unless a fetch in
  between has put its id into the cached list (`Registry.SensorRepeatPostsAgain`, `Registry.SensorRepeatLater`). The
  id can change only if the driver could not be read the first time.
- Sensor ids are compared up to case. Under the default form two ids of one device count as the same exactly when
  type and uid are the same, or when one uid is the negative of the other and its type lacks the final dash of the
  other's (`Ids.SensorIdsCollide`): type `K` with uid -5 and type `k-` with uid 5, for example
  (`Ids.SharedSensorId`). So a registration shares its id with another one exactly when its uid is negative but not
  -2147483648, or positive under a type that ends in a dash (`Ids.SensorIdShared`, `Ids.LeastUidAlone`). For device
  and type together a dash may stand on either side (`Ids.SensorIdsEqual`, `Ids.DashedTypeCollides`).
- Only the default form keeps devices apart: `{type}-{gatewayId}-{sequence}` drops the device, and `{gatewayId}`
  gives all sensors one id (`Ids.SensorTemplates`).
- One failed gateway fetch makes a client refuse every later registration (`Registry.FailedFetchCloses`,
  `Registry.ClosedForever`).
- A value publish in which no entry has an id reaches `strlen` of a NULL payload; the outcome `NullPayload` says
  exactly when (`Mqtt.Client.ValuePublish`).

Every lemma carries `{:induction false}`: each inductive proof is the one written in its body.

## Model

| member | source | states |
|---|---|---|
| Rings.InitListHead | library/src/mqtt/list.h:73-75 | the head becomes a ring without entries |
| Rings.ListEmpty | library/src/mqtt/list.h:185-188 | true exactly when the ring has no entries |
| Rings.ListInsert | library/src/mqtt/list.h:83-91 | inserting between two neighbours keeps both directions inverse all round and puts the node there |
| Rings.ListAdd | library/src/mqtt/list.h:101-104 | the node becomes the first entry |
| Rings.ListAddTail | library/src/mqtt/list.h:114-117 | the node becomes the last entry |
| Rings.ListUnlink | library/src/mqtt/list.h:127-131 | the entry, and only it, leaves the ring; its own links go stale; an empty ring is left as it is |
| Rings.ListDel | library/src/mqtt/list.h:139-144 | the entry leaves its ring and its links are poisoned; an empty ring by itself is given up |
| Rings.ListDelInit | library/src/mqtt/list.h:152-156 | the node leaves its ring, if it has one, and is an empty ring of its own |
| Rings.ListSplice | library/src/mqtt/list.h:190-213 | the entries of one ring go, in order, in front of those of another |
| Rings.ListSpliceInit | library/src/mqtt/list.h:222-229 | the same, and the emptied head is an empty ring |
| Rings.Drain | library/src/mqtt/list.h:333-337 | deleting the current entry in a safe traversal visits every entry once, in order, and leaves an empty ring |
| Lists.ApplyPartition | library/src/mqtt/list.h:101-229 | every operation keeps each node at one place of one ring, and loses or gains only the node it names |
| Lists.ApplyPlaces | library/src/mqtt/list.h:101-229 | what each operation does to every ring: where the node stands, what its old ring keeps, and that no other ring changes |
| Lists.Family.Init | library/src/mqtt/list.h:73-75 | a new empty ring beside the others |
| Lists.Family.Add | library/src/mqtt/list.h:101-104 | prepends to one ring and leaves all others as they were |
| Lists.Family.AddTail | library/src/mqtt/list.h:114-117 | appends to one ring and leaves all others as they were |
| Lists.Family.Del | library/src/mqtt/list.h:139-144 | the node leaves the ring that holds it, found by its own links alone; that ring keeps the order of its other entries, and every other ring is as it was |
| Lists.Family.DelInit | library/src/mqtt/list.h:152-156 | the same, and the node heads an empty ring |
| Lists.Family.Move | library/src/mqtt/list.h:163-167 | the node stands first in the target ring, before that ring's old entries without it; every other ring only loses the node |
| Lists.Family.MoveTail | library/src/mqtt/list.h:174-179 | the node stands last in the target ring, behind that ring's old entries without it; every other ring only loses the node |
| Lists.Family.SpliceInit | library/src/mqtt/list.h:222-229 | concatenates two rings and empties the first |
| Lists.Family.Step | library/src/mqtt/list.h:101-229 | each operation changes the family of rings exactly as its sequence specification says |
| Lists.Family.RunAll | library/src/mqtt/list.h:73-229 | after any legal mix of operations every ring is intact and holds the sequence the operations spell out |
| HashChains.HlistAddHead | library/src/mqtt/list.h:425-433 | the node becomes the first of the chain and every node still names its own slot |
| HashChains.HlistAddBefore | library/src/mqtt/list.h:438-445 | inserted just before the given node |
| HashChains.HlistAddAfter | library/src/mqtt/list.h:447-456 | inserted just after the given node, at the end of the chain too |
| HashChains.HlistDelInit | library/src/mqtt/list.h:400-423 | removed from its place; nothing happens to a node in no chain |
| HashChains.UniqueSlot | library/src/mqtt/list.h:377-383 | the slot a linked node names is the only slot that points at it |
| HashChains.EditedPlaces | library/src/mqtt/list.h:400-456 | where each operation puts its node, or takes it from, in terms of positions in the chain |
| HashChains.RunAll | library/src/mqtt/list.h:388-456 | after any mix of operations the chain holds the sequence they spell out and nodes outside it name no slot |
| Payloads.CapacityStep | library/src/mqtt/packetize.c:22-31 | growing by one block keeps the least whole number of blocks that holds text and terminator |
| Payloads.Payload.Grow | library/src/mqtt/packetize.c:23-30 | the text is kept and every byte after it is zero |
| Payloads.Payload.Packetize | library/src/mqtt/packetize.c:6-36 | the message is appended, the result is the true capacity, NUL-terminated and zero from there on |
| Grouping.FirstIdsLaws | library/src/mqtt/values.c:58-67 | the group ids are the id texts that occur, each once, in order of first occurrence |
| Grouping.GroupByAppend | library/src/mqtt/values.c:62-66 | one more reading extends its own group, or opens a new last one, and changes no other |
| Grouping.GroupByTotal | library/src/mqtt/values.c:58-67 | the groups together hold as many readings as there are entries with an id |
| Values.ValuesSensor.Push | library/src/mqtt/values.c:34-43 | appends the reading; the allocation is the count rounded up to a multiple of ten |
| Values.SensorValues.SensorSearch | library/src/mqtt/values.c:16-20 | the first node with that id text, or none when no node has it |
| Values.SensorValues.SensorGet | library/src/mqtt/values.c:12-32 | finds the node with that id text or appends an empty one at the end of the ring |
| Values.SensorValues.PushTo | library/src/mqtt/values.c:66 | one group grows by one reading and no storage of another record is touched |
| Values.SensorValues.Init | library/src/mqtt/values.c:45-69 | the ring holds the stable group-by of the entries with an id |
| Values.SensorValues.Stop | library/src/mqtt/values.c:16 | a traversal meets the group records in order and then the head |
| Telemetry.SeriesRoundTrip | docs/Thingplus_Embedded_Guide_EN.md:190-202 | the text of one sensor's readings is read back as the same readings |
| Telemetry.GroupedRoundTrip | docs/Thingplus_Embedded_Guide_EN.md:226-249 | the text of several sensors is read back as the same sensors with the same readings |
| Telemetry.GroupedShape | library/src/mqtt/mqtt.c:146-157 | the grouped text opens with a brace and a quote and ends with a brace; the brackets it adds to ids and values balance, one pair of braces in all and one pair of square brackets for each sensor |
| Telemetry.TopicParts | docs/gateway/mqttProtocol.md:138-157 | gateway and sensor can be read off the two data topics |
| Telemetry.TwoReadings | library/src/mqtt/mqtt.c:121-136 | the text of two readings, and that a time from 2^63 on is printed as a negative number |
| Telemetry.TwoSensors | library/src/mqtt/mqtt.c:146-157 | the text of two sensors in one grouped payload |
| Telemetry.SingleRoute | library/src/mqtt/mqtt.c:103-119 | when all ids are one pointer the grouped input is one group of that id, the first entry has it, and nothing is lost |
| Telemetry.OnePointer | library/src/mqtt/mqtt.c:103-119 | the single-sensor test holds exactly when every entry's id is NULL or the first entry's pointer |
| Telemetry.ValueTopic | library/src/mqtt/mqtt.c:290-297 | when some entry has an id, the topic is the sensor's if every id is NULL or the first entry's pointer, and the gateway's otherwise |
| Telemetry.StampedGroups | library/src/mqtt/mqtt.c:130 | the groups are the id texts in order of first occurrence; each keeps its entries' values and non-zero times in input order, and a zero time has become a clock reading taken during the call |
| Telemetry.StampShape | library/src/mqtt/mqtt.c:126-130 | an entry without a time gets a clock reading taken during the call |
| Telemetry.SingleMessageMeaning | docs/gateway/mqttProtocol.md:138-146 | one sensor's message is read back exactly when neither id has a slash and no value a comma |
| Telemetry.GroupedMessageMeaning | docs/gateway/mqttProtocol.md:151-157 | the gateway's message is read back exactly when its id has no slash, no sensor id a quote, and no value a comma or closing bracket |
| Telemetry.StampedLack | library/src/mqtt/mqtt.c:126-133 | a character is missing from the published ids, or values, exactly when it is missing from those of the entries with an id |
| Telemetry.ValueMeaning | library/src/mqtt/mqtt.c:261-310 | decoding the published topic and payload gives the gateway and exactly the stamped stable group-by, on either route, if and only if that route can carry the ids and values |
| Telemetry.CommaInValueFails | library/src/mqtt/mqtt.c:130 | one reading with a comma in its value is a message that is not read back |
| Publishing.ClockSource.NowMs | library/src/mqtt/mqtt.c:42-51 | each call takes the next clock reading |
| Publishing.PrintValue | library/src/mqtt/mqtt.c:130-132 | one reading is appended, with a comma unless it is the first; the clock is read only for a zero time |
| Publishing.SensorValuePacketize | library/src/mqtt/mqtt.c:121-136 | appends the text of all entries with an id, in order; the payload stays NULL only if there is none |
| Publishing.PrintGroup | library/src/mqtt/mqtt.c:152-155 | appends one sensor's header, readings and closing bracket |
| Publishing.PrintAll | library/src/mqtt/mqtt.c:146-156 | appends every group in ring order |
| Publishing.SensorsValuePacketize | library/src/mqtt/mqtt.c:138-162 | appends the grouped text of the input up to and with its closing brace |
| Status.StatusMeaning | library/src/mqtt/mqtt.c:336-397 | decoding all messages of a status publish gives the facts of the entries with an id, the gateway's first, if and only if the messages can carry the ids |
| Status.GatewayPlace | library/src/mqtt/mqtt.c:339-344 | the gateway's entry is the first one with the gateway's id text, whatever its status, or there is none |
| Status.SplitRoute | library/src/mqtt/mqtt.c:375-397 | without the gateway among the things, one message for each fact, with topic and payload spelled out |
| Status.CombinedRoute | library/src/mqtt/mqtt.c:352-365 | with it, one message on the gateway's status topic, with the gateway's fact and then those of the entries before and after it |
| Status.FactsCount | library/src/mqtt/mqtt.c:361-378 | as many facts as entries with an id |
| Status.ThreeThings | library/src/mqtt/mqtt.c:352-365 | the text of the gateway's status and that of two more things |
| Status.SlashInIdFails | library/src/mqtt/mqtt.c:380-384 | a thing with a slash in its id, without the gateway among the things, is a publish that is not read back |
| Status.StatusConservation | library/src/mqtt/mqtt.c:336-397 | putting the gateway first neither loses, repeats nor alters a fact |
| Status.ThingMeaning | library/src/mqtt/mqtt.c:380-395 | a thing's own message says that thing's fact and nothing of an earlier one; with a slash in an id it says nothing |
| Status.CombinedMeaning | docs/gateway/mqttProtocol.md:120-127 | the combined message is read back as the gateway's fact followed by the others exactly when the gateway's id has no slash and no other id a comma |
| DeviceManagement.ReplyMeaning | library/src/mqtt/device_management.c:168-199 | a reply, result or error, is read back as it was meant if and only if its id has no quote |
| DeviceManagement.QuotedIdFails | library/src/mqtt/device_management.c:168-199 | the reply to a request with a quote in its id that cannot be read, whatever callbacks are set |
| DeviceManagement.ReplyReads | library/src/mqtt/device_management.c:165-199 | what is read in the reply to a request whose id has no quote: code -32601 for a missing method, -32000 when no callback ran or it returned false, and otherwise the callback's message as a result |
| DeviceManagement.RpcLaws | library/src/mqtt/device_management.c:152-201 | at most one callback runs, the one of the named method; the reply is a result exactly when it ran and returned true |
| DeviceManagement.NoCallback | library/src/mqtt/device_management.c:13-134 | no callback runs exactly for a name outside the table, a missing parameter, or a callback the user has not set, method by method |
| DeviceManagement.CallbackArguments | library/src/mqtt/device_management.c:64-118 | the callback that runs is the one of the named method, and its arguments are the request's parameters, the numbers cut to 64 and 32 bits |
| DeviceManagement.ReplyFits | library/src/mqtt/device_management.c:165-199 | exactly which replies fit the 512-byte scratch buffer, for results, failures, refusals and the missing method |
| DeviceManagement.FailureOverflows | library/src/mqtt/device_management.c:191-199 | a message of 467 bytes under a one-byte id fits as a result and overflows as an error |
| DeviceManagement.Manager.Plain | library/src/mqtt/device_management.c:13-56 | the parameterless handlers call their callback once if it is set |
| DeviceManagement.Manager.PropertySetter | library/src/mqtt/device_management.c:58-72 | needs the interval, which is cut to 32 bits |
| DeviceManagement.Manager.TimeSyncer | library/src/mqtt/device_management.c:74-88 | needs the time |
| DeviceManagement.Manager.Actuator | library/src/mqtt/device_management.c:90-119 | needs id, command and options |
| DeviceManagement.Manager.Lookup | library/src/mqtt/device_management.c:181-189 | the search of the table runs the callback the method name and parameters ask for, or none |
| DeviceManagement.Manager.Do | library/src/mqtt/device_management.c:136-202 | NULL exactly without a parsed request that has an id; otherwise the reply and the callback the request calls for |
| Sessions.RunSound | library/src/mqtt/mqtt.c:171-423 | in every run the state follows the latest link event, and every data publish and every `off` happens after a connect that subscribed and published `on`, with no disconnect in between, topic and payload of both being spelled out |
| Sessions.RunPresence | library/src/mqtt/mqtt.c:86-101 | in every run a successful connect is followed by the subscription and a presence message that reads as `on`, and every other presence message follows the unsubscription of a disconnect call and reads as `off` |
| Sessions.PresenceMeaning | docs/gateway/mqttProtocol.md:85-87 | a presence message is read back as gateway and state if and only if the gateway's id has no slash |
| Sessions.HangUpSays | library/src/mqtt/mqtt.c:411-420 | a disconnect call after any run unsubscribes once there was a link event, and publishes `off` exactly while a connect is in force |
| Sessions.StateByEvents | library/src/mqtt/mqtt.c:171-225 | connected exactly when a successful connect came and no disconnect after it; initialized exactly before any of the two |
| Sessions.LatestCallbacks | library/src/mqtt/mqtt.c:488-503 | the callbacks in force after a run are those set last |
| Sessions.NoCallbacks | library/src/mqtt/mqtt.c:480-504 | until they are set there are none |
| Sessions.ConnectSays | library/src/mqtt/mqtt.c:171-218 | what a connect callback does, and which of the errors the user's callback gets for each code |
| Sessions.DisconnectSays | library/src/mqtt/mqtt.c:220-233 | the user's callback gets no error for a disconnect that was asked for, and an unexpected one otherwise |
| Sessions.ClockReads | library/src/mqtt/mqtt.c:130 | on either route a value publish reads the clock once for each entry with an id and without a time |
| Sessions.RequestTopicParts | library/src/mqtt/mqtt.c:536-537 | gateway and direction can be read off the two request topics if and only if the gateway's id has no slash |
| Sessions.NeverInitializedAgain | library/src/mqtt/mqtt.c:33-37 | a run never returns to the initial state |
| Sessions.StepState | library/src/mqtt/mqtt.c:178-225 | connected exactly when the latest of successful connect and disconnect is a connect |
| Sessions.StepPublishes | library/src/mqtt/mqtt.c:280-417 | one step adds data or `off` only while the link is up and announced |
| Sessions.ValueCallMeaning | library/src/mqtt/mqtt.c:261-310 | a value publish while connected is one message, which decodes to the grouped input if and only if its route can carry it |
| Sessions.ValueCallTopic | library/src/mqtt/mqtt.c:285-304 | a value publish while connected is one message, on the sensor's topic exactly when every id is NULL or the first entry's pointer, and on the gateway's otherwise |
| Sessions.StatusCallMeaning | library/src/mqtt/mqtt.c:312-400 | the messages of a status publish together say exactly the facts of the entries with an id, if and only if they can carry the ids |
| Sessions.StatusCallTopics | library/src/mqtt/mqtt.c:336-397 | a status publish while connected is one message on the gateway's status topic if some entry has the gateway's id text, and otherwise one message for each entry with an id, on its topic, in order |
| Sessions.RequestMeaning | library/src/mqtt/mqtt.c:235-249 | a request with an id leads to the callback it calls for, if any, and then one reply on the response topic; the reply is read back with the id of the request if and only if that id has no quote, and then as a result exactly when the callback ran and returned true |
| Sessions.NoAnswer | library/src/mqtt/mqtt.c:235-242 | nothing happens exactly without callbacks, without a request that parses, or without its id |
| Mqtt.RouteLaws | library/src/mqtt/mqtt.c:103-157 | the grouped route is taken only when there is a group to print |
| Mqtt.GatewayFitsLength | library/src/mqtt/mqtt.c:88-89 | the presence topic fits its buffer exactly for gateway ids of at most 237 bytes, and then the request topics do |
| Mqtt.ValueFitsShort | library/src/mqtt/mqtt.c:286-295 | lengths of ids and values that make every fragment and the topic fit, whatever the clock shows |
| Mqtt.StatusFitsShort | library/src/mqtt/mqtt.c:347-384 | lengths of ids that make every fragment and topic of a status publish fit |
| Mqtt.FactSays | library/src/mqtt/mqtt.c:361-384 | the fact of each entry with an id, in input order, has its id, its state and now plus its timeout, cut to 64 bits |
| Mqtt.Client.TraceSound | library/src/mqtt/mqtt.c:171-423 | after any sequence of calls and callbacks on a client its trace is sound, its presence messages are those of its connects and disconnect calls, and it is connected while its latest link event is a connect |
| Mqtt.Client.constructor | library/src/mqtt/mqtt.c:506-571 | starts initialized, without callbacks, whatever the clock has been read before |
| Mqtt.Client.CallbackSet | library/src/mqtt/mqtt.c:480-504 | sets the callbacks and a dispatcher over them, together |
| Mqtt.Client.PresencePublish | library/src/mqtt/mqtt.c:86-101 | publishes `on` for a connect and `off` otherwise, on the presence topic |
| Mqtt.Client.OnConnect | library/src/mqtt/mqtt.c:171-218 | makes the connect step: subscribe and `on` only on success, and the user's callback with the error that belongs to the code |
| Mqtt.Client.OnDisconnect | library/src/mqtt/mqtt.c:220-233 | makes the disconnect step |
| Mqtt.Client.OnMessage | library/src/mqtt/mqtt.c:235-249 | makes the request step; without a dispatcher nothing is answered |
| Mqtt.Client.ContainSingleSensor | library/src/mqtt/mqtt.c:103-119 | true exactly when every entry's id is NULL or the first entry's pointer |
| Mqtt.Client.ValuePrint | library/src/mqtt/mqtt.c:285-297 | topic and payload are the message of the specification; the payload is NULL exactly when no entry has an id |
| Mqtt.Client.ValuePublish | library/src/mqtt/mqtt.c:261-310 | the error cases change nothing; a connected client makes the value step |
| Mqtt.Client.FindGateway | library/src/mqtt/mqtt.c:336-344 | -1 exactly when no entry has the gateway's id text, and otherwise the first that has, whatever its status |
| Mqtt.Client.CombinedPrint | library/src/mqtt/mqtt.c:352-365 | the combined text: the gateway's fact, then the others in order |
| Mqtt.Client.SplitPublish | library/src/mqtt/mqtt.c:375-397 | one message for each entry with an id, in order |
| Mqtt.Client.PublishThing | library/src/mqtt/mqtt.c:380-395 | a thing's message is printed into an empty buffer and a topic of its own |
| Mqtt.Client.StatusPublish | library/src/mqtt/mqtt.c:312-400 | the error cases change nothing; a connected client makes the status step with one clock reading |
| Mqtt.Client.HangUp | library/src/mqtt/mqtt.c:403-423 | makes the disconnect-call step: `off` only while connected; the state is left to the callback |
| Ids.DeviceIdInjective | library/src/rest/rest.c:302-312 | under the address template device ids equal up to case have the same address |
| Ids.AddressesDistinguished | library/src/rest/rest.c:302-324 | ids tell addresses apart exactly under the address template |
| Ids.DeviceIdFits | library/src/rest/rest.c:309-311 | the id fits its field for all addresses exactly when the gateway id has at most 115 bytes |
| Ids.FixedDeviceId | library/src/rest/rest.c:313-320 | under the gateway's template the id is the gateway id; under another one, what follows its first twelve bytes, whatever they are, stands after the gateway id |
| Ids.DeviceIdExamples | library/src/rest/rest.c:302-324 | two addresses with one id, and a gateway id whose device id is too long by one |
| Ids.SensorIdText | library/src/rest/rest.c:379-400 | what the posted id is under each form of template: text, dash, digits, the sign of a negative uid being a second dash |
| Ids.SensorIdRoundTrip | library/src/rest/rest.c:379-400 | under the default form, type and uid are read off the posted id of a known device if and only if the uid is not negative |
| Ids.FullSensorIdRoundTrip | library/src/rest/rest.c:379-400 | device, type and uid are read off the posted id if and only if the uid is not negative and the type has no dash |
| Ids.SensorIdsEqual | library/src/rest/rest.c:385-398 | the code takes two posted ids with a uid, under any templates, for the same exactly when they agree up to case before the last dash and in the size of the uid |
| Ids.SensorIdsCollide | library/src/rest/rest.c:385-398 | for a fixed device the code takes two posted ids for the same exactly when type and uid are, or when one uid is the other's negative and its type lacks the other's final dash, all up to case |
| Ids.SensorIdShared | library/src/rest/rest.c:385-398 | exactly which registrations get an id the code cannot tell from that of another one of the device |
| Ids.SharedSensorId | library/src/rest/rest.c:367-398 | two types the code tells apart, with two uids, whose ids it does not |
| Ids.LeastUidAlone | library/src/rest/rest.c:385-398 | the least uid shares its id with no other registration |
| Ids.DashedTypeCollides | library/src/rest/rest.c:398 | a dash in the type may as well belong to the device |
| Ids.SensorTemplates | library/src/rest/rest.c:379-400 | posted ids tell devices apart exactly under the default form, and uids exactly under every template but the gateway's |
| Ids.SensorIdFits | library/src/rest/rest.c:381-398 | for each form of template, exactly the lengths under which the id fits its field for every uid |
| Drivers.SensorDrivers.Search | library/src/rest/sensor_driver.c:68-77 | the first row whose name is equal up to case, or the length |
| Drivers.SensorDrivers.IdTemplateGet | library/src/rest/sensor_driver.c:79-94 | a known name is answered from the table without a fetch; a successful fetch is remembered, a failed one changes nothing |
| Drivers.SensorDrivers.Cleanup | library/src/rest/sensor_driver.c:96-114 | empties the table |
| Drivers.FirstSuccessExactly | library/src/rest/sensor_driver.c:79-94 | the first success for a name is the answer to the first lookup, up to case, that the server answered; there is none exactly when it answered none |
| Drivers.TableIsMap | library/src/rest/sensor_driver.c:40-57 | over every run of lookups the table is a map from case-folded names to the first successful answer |
| Drivers.LookupLaw | library/src/rest/sensor_driver.c:79-94 | each lookup returns the first success for its name, fetches exactly when there was none before, and changes the table only by a success of its own |
| Drivers.NeverFetchedAgain | library/src/rest/sensor_driver.c:79-94 | after a success no name equal to it up to case is ever fetched again |
| Drivers.SuccessStays | library/src/rest/sensor_driver.c:68-94 | an answer once obtained never changes |
| Drivers.TableHasNoDuplicates | library/src/rest/sensor_driver.c:40-57 | no two names in the table are equal up to case |
| Text.FoldMeaning | library/src/rest/rest.c:290-300 | names are compared letter by letter, equal or in the two cases of one letter |
| Registry.PostGate | library/src/rest/rest.c:653-767 | over every run, everything sent is sent by a call that may send it: a POST from a discoverable cached gateway, for the first model that matches what the call or the server names, itself discoverable, with the id that model and the call's uid give, not in the cached list |
| Registry.StepAdds | library/src/rest/rest.c:653-767 | one call sends only what it may send, and of POSTs at most one, after its reads |
| Registry.FailedFetchCloses | library/src/rest/rest.c:614-640 | a failed gateway fetch fails the call and leaves a cache that looks filled and refuses everything |
| Registry.ClosedForever | library/src/rest/rest.c:653-730 | from then on no call sends anything or changes anything |
| Registry.RegistryUnique | library/src/rest/rest.c:101-113 | if no fetched device list has two ids equal up to case, the cached list never has |
| Registry.DeviceOutcome | library/src/rest/rest.c:709-770 | success exactly when a device POST was accepted; then its id is new and appended, otherwise the list is as the fetches left it; duplicated exactly when that list has the id |
| Registry.DuplicateExactly | library/src/rest/rest.c:757-760 | in any state, a device call is a duplicate exactly when the gateway is open, the model found and open, and the list the fetches left holds the id |
| Registry.SensorOutcome | library/src/rest/rest.c:642-707 | success exactly when a sensor POST was accepted, with the id returned; duplicated exactly when the cached list has the id; the cache stays as the fetches left it |
| Registry.RepeatIsDuplicate | library/src/rest/rest.c:757-767 | after a success, and any calls in between, the same registration is a duplicate and sends nothing |
| Registry.RepeatCanPostAgain | library/src/rest/rest.c:719-724 | unless the gateway reply had no model number: then it can succeed again |
| Registry.OtherAddressUnaffected | library/src/rest/rest.c:290-312 | after a success for one address, and any calls in between, a call for another one is a duplicate exactly when the list held its id before or has got it since |
| Registry.SensorRepeatPostsAgain | library/src/rest/rest.c:696-706 | the same sensor registration after a success sends the same POST again after its reads, unless the list now cached has the id, which without a fetch it never has |
| Registry.SensorRepeatLater | library/src/rest/rest.c:696-706 | on a filled cache, after any calls in between, the same sensor registration gets the same id and sends the same POST again |
| Provenance.ParsedAsSaid | library/src/rest/rest.c:511-526 | the record read from a gateway reply is what the reply says: model number, sign of consent in either case, devices and sensors |
| Provenance.SinceReply | library/src/rest/rest.c:511-526 | by the log alone, the cached devices are those of the last gateway reply and then the ids accepted since, the sensors are that reply's, and the gateway is open exactly when it said `Y` or `y`; after a failed read there are none and it is closed |
| Provenance.CacheFromReplies | library/src/rest/rest.c:614-770 | over every run from an empty client, the cache is what the answers in the log say, and every POST was made from what they said by then |
| Admission.Opening | library/src/rest/rest.c:719-734 | exactly when a register call goes on from its fetches, by the cache and the server's answers alone; what it then knows and what it has read |
| Admission.DevicePosted | library/src/rest/rest.c:735-769 | when it goes on, and the first model with the id is open and has a template, the call is a duplicate if the list has the id, and otherwise sends exactly that POST; result, cache and log for either answer |
| Admission.DeviceRefused | library/src/rest/rest.c:709-755 | every other outcome of a device call, each exactly when it comes about, and that it sends only reads |
| Admission.SensorPosted | library/src/rest/rest.c:674-706 | when it goes on, the server names the device's model, and that model is open and has the type, the call is a duplicate or sends exactly that POST; result, cache, driver table and log |
| Admission.SensorRefused | library/src/rest/rest.c:653-688 | every other outcome of a sensor call, each exactly when it comes about, and that it sends only reads |
| Rest.Client.constructor | library/src/rest/rest.c:772-803 | starts with a cache marked as empty |
| Rest.Client.GatewayInfo | library/src/rest/rest.c:614-640 | the record is zeroed, then filled if the read succeeds |
| Rest.Client.ModelGet | library/src/rest/rest.c:258-277 | models are cached if the reply has them; a reply without them still counts as read |
| Rest.Client.DeviceModelGet | library/src/rest/rest.c:279-288 | the first model with that id up to case |
| Rest.Client.SensorGet | library/src/rest/rest.c:355-365 | the first sensor of that type up to case |
| Rest.Client.IsDuplicated | library/src/rest/rest.c:290-300 | true exactly when some listed id is equal up to case |
| Rest.Client.DeviceRegister | library/src/rest/rest.c:709-770 | makes the device step of the registry |
| Rest.Client.SensorRegister | library/src/rest/rest.c:642-707 | makes the sensor step of the registry |
| Rest.Client.LogGated | library/src/rest/rest.c:642-770 | everything a client ever sent passed the gate of the call that sent it |
| Rest.Client.CacheKnown | library/src/rest/rest.c:614-770 | what a client has cached is what the server told it and took from it, after any sequence of calls |
| Streams.Body.Callback | library/src/rest/tcurl.c:12-33 | the chunk is appended and NUL-terminated; an empty chunk is refused |
| Streams.Perform | library/src/rest/tcurl.c:12-33 | any split of a body into non-empty chunks leaves the same text and size |
| Streams.ChangesLaws | examples/people-counter/src/apc100.c:72-97 | no two deliveries in a row are equal and the last one is the last value read |
| Streams.DeliveriesLaw | examples/people-counter/src/apc100.c:72-97 | the numbers in the delivered records are the changes of the numbers read, and each record delivered is one that was read |
| Streams.SuccessesLaws | examples/people-counter/src/apc100.c:72-97 | the successful reads are all there, in order, and nothing else |
| Streams.Counter.Polling | examples/people-counter/src/apc100.c:72-97 | delivers, as they were read, exactly the records that show another number entered than the successful read before, in order, and keeps the last successful read |

## Left out

- Mqtt.Client.ValuePublish: does not model a topic of 256 bytes or more, nor a printed fragment of 512 bytes or more, which overrun the buffers of `library/src/mqtt/mqtt.c:286` and `library/src/mqtt/packetize.c:10`; nothing is said after the NULL payload is measured, and the state machine then records no publish.
- Mqtt.Client.StatusPublish: does not model topics and fragments that overrun those buffers; a refused publish is only logged by the code, so its result is not a parameter.
- Mqtt.Client.constructor: does not model gateway ids of 238 bytes or more, which overrun the presence topics of `library/src/mqtt/mqtt.c:73` and `library/src/mqtt/mqtt.c:88` at the first connect.
- Mqtt.Client.OnMessage: does not model a reply that overruns the 512-byte scratch buffer; `DeviceManagement.ReplyFits` says exactly when it does.
- DeviceManagement.Manager.Do: JSON parsing is outside the model, so a request is the members the code asks for; a member that is JSON null, and replies that are not valid JSON, are not modelled.
- Telemetry.ValueMeaning: the array form of the protocol is never printed and is not decoded.
- Sessions.RunSound: makes no claim of silence after `mqtt_disconnect`, because the state changes only in the disconnect callback and publishes may pass until then.
- Ids.DeviceIdFits: an id longer than its 128-byte field is treated as text everywhere else; what the code writes past the field is not modelled. The same holds of `Ids.SensorIdFits`.
- Rest.Client.LogGated: is about one client with a driver table of its own; the table is static in the code, and what a second client or a cleanup does to it is outside a client's record. What was fetched about drivers is recorded in that table, not in the client's log.
- Registry.PostGate: sensors registered in the same session are not in the list a sensor id is compared with, so only duplicates of the fetched list are excluded.
- Registry.DeviceOutcome: the registration calls' NULL arguments, and the name that is posted along, are left out; the code of an unknown device model is -1, like a failed read.
- Drivers.TableIsMap: holds between cleanups; a failed allocation, which drops the table, is not modelled.
- Rings.ListDel: the two poison addresses are modelled as null, and `container_of` as a constant field of the node.
- Values.SensorValues.Init: the list head is a full node; that the block is allocated with the size of a pointer (`library/src/mqtt/values.c:47`) and the order of frees in `values_cleanup` are not modelled.
- Streams.Counter.Polling: the callback is set throughout and the loop runs for finitely many polls; reading the serial port is the sequence of poll results.
- Mosquitto, libcurl and json-c: their calls are a ghost trace, parameters or oracles; TLS, sockets, the will message, keepalive, reconnect delays and `mqtt_connect` are left out.
- The clock is an arbitrary sequence of readings, which need not grow.
- Allocation failure, frees and cleanup order, other than emptying the driver table.
- Threads: every callback and API call is one step.
- The cached device list is a sequence of texts rather than an array of pointers, so sharing of strings between lists is not modelled.
- Logging, `url.c`, the argument checks of `thingplus.c`, the reading of device, sensor and user information, and the example programs apart from the polling loop: they would add only easy members.

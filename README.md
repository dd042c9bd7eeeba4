# LoRa–MQTT gateway: the event relay

This project models the event relay of a single-board gateway. The gateway
forwards LoRa radio packets to an MQTT topic. It sends messages from an
inbound MQTT topic out over the radio. It also answers a liveness ping.

The relay state is six globals:

- three pending-event flags: `gotLoraPacket`, `gotMQTTMsg` and `gotMQTTPing`;
- two payload slots: `loraMsg` and `mqttMsg`;
- the signal-strength text `loraRSSI`.

Three entry points drive it:

- the radio receive callback;
- the MQTT message callback;
- the loop body. It reconnects if needed, then services the three flags in a fixed order, then pumps the MQTT client.

The model has four modules, one file each:

- `CStrings` (`cstrings.dfy`) covers the C-string conventions the code relies on:
  - `CString` is the text before the first NUL;
  - `SameCString` is `strcmp(a, b) == 0`;
  - `Decimal` is Arduino `String(int)`.
- `EventRelay` (`event_relay.dfy`) holds the value-level model.
  - `Relay` is the datatype of the globals, plus the session flag and a log of external effects. The effects are `Publish(topic, text)`, `LoRaSend(text)`, `LoRaReceive`, `Subscribe(topic)` and `Pump`.
  - Each entry point is a transition function: `LoraReceived`, `MqttReceived`, `Reconnect` and `Step`. `SessionDropped` is the session going down between steps.
  - `Event` is one thing that can happen to the relay: a radio packet, an MQTT message, the session dropping, or one call of `loop()`. `Run` applies a trace of events in order.
  - `RelayEffects` is an independent statement of what one step emits.
- `RelayProperties` (`relay_properties.dfy`) holds the routing contract as lemmas about those transitions and about traces.
- `Firmware` (`firmware.dfy`) is the imperative model.
  - Class `Gateway` has the globals as mutable fields. Each callback and the loop body is a method that updates them in place and appends to `log`.
  - `OnLoraReceive`, `OnMqttReceive`, `ConnectionLost`, `ReconnectMqtt` and `Loop` are each proved against the matching `EventRelay` function, through the ghost `State()`. `SendLoraMessage` is proved to append exactly one `LoRaSend` entry and change nothing else.
  - `ReadPacket` is the byte-accumulation loop of the radio callback.

Modelling choices:

- The four topics are configured strings (`Config`), not an enumeration. Topics are classified with `strcmp`, modelled as equal C strings.
- The two topic tests in the MQTT callback are independent `if`s. So a configuration whose inbound and ping topics are equal raises both flags. `MqttClassification` states this.
- Each attempt of `client.connect` is one element of a finite `seq<bool>` of outcomes.
- When no outcome succeeds, the real firmware stays blocked inside `reconnectMQTT`. So the modelled step changes nothing, and `Loop` reports `completed == false`.
- `ConnectionLost` is the environment event of the session dropping between steps. It models `client.connected()` turning false.
- I/O is not simulated. The log records five kinds of call, one entry each: `client.publish`, `client.subscribe`, a radio transmission, `LoRa.receive()` and `client.loop()`. A radio transmission (`beginPacket`, `print`, `endPacket`) is one `LoRaSend` entry.
- The queries are parameters, not log entries: `client.connected()`, the radio's receive buffer (`LoRa.available`/`LoRa.read`), `LoRa.packetRssi()` and the outcome of each `client.connect`. Connect attempts are not logged.
- Callbacks are atomic steps between loop steps.

The gateway is meant to forward payloads verbatim. The code does not, and the model follows the code:

- The MQTT payload is cut at `length` and read back as a C string, so it is truncated at its first NUL (`src/main.cpp:104-111`).
- The radio text is published through `loraMsg.c_str()`, so it is also truncated at its first NUL (`src/main.cpp:161`).
- Verbatim forwarding is therefore proved only for NUL-free payloads (`RadioPacketPublishedOnce`, `MqttMessageSentOnce`, `MqttInboundVerbatim`).
- Exactly-once publishing of a radio packet also needs the out topic and the ping-reply topic to be different C strings. Otherwise an equal ping reply or announcement would be counted too.
- The exactly-once lemmas are about traces. A packet or message arrives; other callbacks and session drops may follow; then comes one completed call of `loop()`, then any further events. The payload is forwarded once over the whole trace as long as no second packet or inbound message overwrites its slot, before or after the forwarding step.

## Model

| member | source | states |
|---|---|---|
| CStrings.CString | src/main.cpp:104-111 | The NUL-terminated reading of a buffer is its longest NUL-free prefix. It contains no NUL, and it is either the whole buffer or is followed by a NUL. |
| CStrings.CStringOfPlain | src/main.cpp:161 | Reading a NUL-free `String` through `c_str()` gives it back whole. |
| CStrings.SameCStringPlain | src/main.cpp:108 | For NUL-free strings, `strcmp(a, b) == 0` holds exactly when the strings are equal, both ways. |
| CStrings.NatDigits | src/main.cpp:70 | Decimal digits of a natural number: at least one digit, all digits, no leading zero unless the number is 0. |
| CStrings.Decimal | src/main.cpp:70 | `String(int)` of the RSSI: a leading `-` exactly for negative numbers, then digits, with no leading zeros. |
| CStrings.DecimalRoundTrip | src/main.cpp:70 | Reading the rendered signal strength back as a decimal number yields the original RSSI. |
| EventRelay.LoraReceived | src/main.cpp:57-71 | The radio callback: a zero-length packet changes nothing. Otherwise the radio flag is raised, `loraMsg` is the received text and `loraRSSI` reads back as the RSSI. The MQTT flags and slot, the session and the log never change. |
| EventRelay.MqttReceived | src/main.cpp:99-117 | The MQTT callback: an inbound-topic match raises the inbound flag and stores a NUL-free text of at most `length` characters; otherwise the inbound flag and slot are kept. The ping flag is raised exactly on a ping-topic match. The radio fields, the session and the log never change. |
| EventRelay.Reconnect | src/main.cpp:119-138 | On a live session nothing happens. Otherwise, if some attempt succeeds, the session is up and the log gains exactly `Publish(PingReply, "Hi, from board")`, `Subscribe(Ping)`, `Subscribe(In)`, in that order. If every attempt fails, nothing changes. |
| Firmware.ReadPacket | src/main.cpp:63-66 | The accumulation loop collects exactly the bytes the radio yields, in order. |
| Firmware.Gateway.constructor | src/main.cpp:28-34 | Power-up: all flags false, all slots empty, no session, empty effect log. |
| Firmware.Gateway.OnLoraReceive | src/main.cpp:57-71 | The new state is `LoraReceived` of the old one: a zero-length packet changes nothing, otherwise the flag is raised and both radio slots are overwritten. |
| Firmware.Gateway.OnMqttReceive | src/main.cpp:99-117 | The new state is `MqttReceived` of the old one: classification by topic, storing the payload truncated at `length` and at the first NUL. |
| Firmware.Gateway.ConnectionLost | src/main.cpp:153 | The new state is `SessionDropped` of the old one: the session drops between steps and only `connected` changes. |
| Firmware.Gateway.SendLoraMessage | src/main.cpp:73-78 | One radio transmission: exactly one `LoRaSend(outgoing)` is appended, nothing else changes. |
| Firmware.Gateway.ReconnectMqtt | src/main.cpp:119-138 | The retry loop moves the state as `Reconnect` does. The number of attempts is 0 on a live session, otherwise one past the failures up to the first success, or all outcomes when none succeeds. |
| Firmware.Gateway.Loop | src/main.cpp:151-184 | One loop body moves the state as `Step` does. It completes exactly when the session was live or some connect attempt succeeds. |
| RelayProperties.LoraEmptyPacketIgnored | src/main.cpp:59-60 | A zero-length packet leaves every flag, slot and the log unchanged. |
| RelayProperties.LoraPacketStored | src/main.cpp:63-70 | A nonzero packet raises `gotLoraPacket`, stores the payload and the RSSI text, which reads back as the RSSI, and changes nothing else. |
| RelayProperties.LoraLastWriteWins | src/main.cpp:68-70 | A second nonzero packet before the relay runs erases every trace of the first: no queueing. |
| RelayProperties.MqttClassification | src/main.cpp:104-116 | Inbound flag and slot follow an inbound-topic match, the ping flag a ping-topic match, independently. Radio slots, session and log never change. |
| RelayProperties.MqttClassificationPlain | src/main.cpp:108-116 | With NUL-free topic names, `strcmp` classification is plain equality: the inbound flag and slot follow `topic == In`, the ping flag `topic == Ping`. |
| RelayProperties.MqttInboundStoresPrefix | src/main.cpp:104-111 | On the inbound topic the stored text is the prefix of `payload[..length]` up to its first NUL. |
| RelayProperties.MqttInboundVerbatim | src/main.cpp:104-111 | A NUL-free inbound payload is stored verbatim. |
| RelayProperties.MqttPingOnlyFlag | src/main.cpp:115-116 | On the ping topic (not also the inbound one) only `gotMQTTPing` is raised; the content is ignored. |
| RelayProperties.MqttOtherTopicIgnored | src/main.cpp:108-116 | A message on any other topic leaves the relay unchanged. |
| RelayProperties.MqttLastWriteWins | src/main.cpp:110-111 | A later inbound message replaces the earlier text in the slot. |
| EventRelay.Step | src/main.cpp:151-184 | One call of `loop()` only appends to the log and never changes the payload slots. If no connect attempt succeeds, nothing changes. If the step completes, the session is live and all three flags are cleared. |
| RelayProperties.StepLog | src/main.cpp:151-184 | A completed step appends, in order: the reconnect effects if the session was down, then `Publish(Out, loraMsg)`, `LoRaSend(mqttMsg)` with `LoRaReceive`, and `Publish(PingReply, "I am alive ;)")`, each only if its flag was set on entry, then `Pump`. No relay effect comes before the session is up. |
| RelayProperties.StepClearsFlags | src/main.cpp:156-181 | After a completed step the session is live and all three flags are false. |
| RelayProperties.StepKeepsSlots | src/main.cpp:156-183 | A step never changes `loraMsg`, `mqttMsg` or `loraRSSI`. |
| RelayProperties.StepBlockedWhileDisconnected | src/main.cpp:121-137 | While no connect attempt succeeds nothing is forwarded and nothing changes. |
| RelayProperties.RssiNotForwarded | src/main.cpp:161-171 | Steps from states that differ only in `loraRSSI` perform the same effects: the RSSI never reaches a published payload. |
| RelayProperties.IdleStepOnlyPumps | src/main.cpp:153-183 | On a live session with no flag set, a step only appends `Pump`. |
| RelayProperties.SecondStepOnlyPumps | src/main.cpp:153-183 | Forwarding is idempotent: a step after a completed one only appends `Pump`. |
| RelayProperties.StepExtendsLog | src/main.cpp:151-184 | A step only appends to the effect log. |
| EventRelay.Run | src/main.cpp:57-184 | Applying a trace of callbacks, session drops and loop calls in order only ever appends to the effect log. |
| RelayProperties.RunConcat | src/main.cpp:57-184 | Running two traces one after the other is running their concatenation. |
| RelayProperties.CountStep | src/main.cpp:151-184 | In the effects of one completed step, a radio send or a publish to a topic other than the ping-reply topic occurs exactly once per pending event that forwards it, and never otherwise. |
| RelayProperties.CallbackKeeps | src/main.cpp:57-117 | A callback or session drop never touches the log. Only a radio packet changes the radio flag and slot. Only a message on the inbound topic changes the MQTT flag and slot. |
| RelayProperties.CallbacksKeepLog | src/main.cpp:57-117 | A trace without loop calls leaves the log unchanged. Without radio packets it keeps the radio flag and slot; without inbound messages it keeps the MQTT flag and slot. |
| RelayProperties.StepNoOutPublish | src/main.cpp:151-184 | With no radio packet pending and distinct out and ping-reply topics, a step publishes nothing to the out topic and leaves no packet pending. |
| RelayProperties.StepNoSend | src/main.cpp:151-184 | With no inbound message pending, a step sends nothing over the radio and leaves no message pending. |
| RelayProperties.NoRadioNoOutPublish | src/main.cpp:57-184 | Over any trace without radio packets, starting with none pending, nothing is published to the out topic (given distinct out and ping-reply C strings). |
| RelayProperties.NoInboundNoSend | src/main.cpp:99-184 | Over any trace without inbound-topic messages, starting with none pending, nothing is sent over the radio. |
| RelayProperties.SplitAtStep | src/main.cpp:57-184 | A trace of the form event, callbacks, loop call, rest runs as those pieces in turn. |
| RelayProperties.RadioPacketPublishedOnce | src/main.cpp:57-71 | A nonempty NUL-free radio packet, followed by callbacks without radio packets, one completed loop call and any further events without radio packets, is published verbatim to the out topic exactly once over the whole trace (out and ping-reply topics being different C strings). |
| RelayProperties.SendThenReceive | src/main.cpp:166-173 | In one completed step with an inbound message pending, the message is sent over the radio and the very next effect re-arms receive. |
| RelayProperties.SentOnceFrom | src/main.cpp:166-173 | From a state with an inbound message pending, a completed step followed by events without inbound messages sends that message exactly once, with receive re-armed right after it. |
| RelayProperties.MqttMessageSentOnce | src/main.cpp:99-117 | A NUL-free message on the inbound topic, followed by callbacks without inbound messages, one completed loop call and any further events without inbound messages, is sent verbatim over the radio exactly once over the whole trace, directly followed by `LoRaReceive`. |
| RelayProperties.HelloScenario | src/main.cpp:156-164 | Radio delivers `"hello"` at -80: the next step publishes exactly `"hello"` to the out topic, then pumps. |
| RelayProperties.CommandScenario | src/main.cpp:166-173 | Network delivers `"cmd123"` on the inbound topic: the next step sends `"cmd123"`, re-arms receive, then pumps. |
| RelayProperties.PingScenario | src/main.cpp:175-181 | An empty message on the ping topic: the next step publishes `"I am alive ;)"` to the ping-reply topic, then pumps. |

## Left out

- WiFi association and its busy-wait loop (`initWifi`): I/O plumbing with no relay logic.
- Radio setup (`initLora`: pins, 868 MHz, spreading factor, the fatal halt on init failure) and `setup`: these are foreign library calls with no logic.
- Internal behaviour of the radio, MQTT and WiFi libraries: delivery, `client.state()` codes, what `client.loop()` does. Each `client.publish`, `client.subscribe`, radio transmission, `LoRa.receive()` and `client.loop()` is one opaque log entry. Queries and connect attempts are parameters and are not logged.
- Firmware.Gateway.ReconnectMqtt: covers a finite sequence of connect outcomes, not the unbounded retry. The attempts themselves and the 5-second `delay` back-off are not logged, because time is not modelled.
- `Serial` diagnostics: output-only logging.
- True interrupt concurrency: each callback is an atomic step, so races on the non-atomic flag checks are not modelled.
- The out-of-bounds write `payload[length] = '\0'` as a memory effect; only its truncating consequence is modelled.
- Firmware.Gateway.OnLoraReceive: assumes `String +=` appends each radio byte verbatim, NUL included. The library code that decides this is not part of this model. The NUL truncation on publishing is modelled.
- The session dropping in the middle of a step: `client.connected()` is read once, at the top of `loop`.

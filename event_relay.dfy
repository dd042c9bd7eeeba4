/**
 * The gateway's event relay as values: the six globals of the firmware
 * (three pending-event flags, two payload slots, the signal-strength slot),
 * whether the MQTT session is up, and the log of external effects performed
 * so far. Each entry point is a function from the old relay to the new one.
 */
module EventRelay {
  import opened CStrings

  /** An external effect the firmware performs instead of returning a value. */
  datatype Effect =
    | Publish(topic: string, text: string)   // client.publish(topic, text)
    | LoRaSend(text: string)                 // sendLoraMessage: beginPacket, print, endPacket
    | LoRaReceive                            // LoRa.receive(): re-arm continuous receive
    | Subscribe(topic: string)               // client.subscribe(topic)
    | Pump                                   // client.loop()

  /** The four configured MQTT topic names. */
  datatype Config = Config(topicOut: string, topicIn: string, topicPing: string, topicPingReply: string)

  datatype Relay = Relay(
    gotLoraPacket: bool,
    loraMsg: string,
    loraRSSI: string,
    gotMqttMsg: bool,
    gotMqttPing: bool,
    mqttMsg: string,
    connected: bool,
    log: seq<Effect>)

  /** Published once a connect attempt succeeds. */
  const Announcement: string := "Hi, from board"
  /** Published in answer to a ping. */
  const AliveReply: string := "I am alive ;)"

  /** The globals' initial values, before the first session. */
  function Init(): Relay
  {
    Relay(false, "", "", false, false, "", false, [])
  }

  /**
   * onLoraReceive(packetSize): `incoming` is what the radio's receive buffer
   * yields byte by byte and `rssi` is LoRa.packetRssi().
   */
  function LoraReceived(s: Relay, packetSize: int, incoming: string, rssi: int): (r: Relay)
    ensures r.gotMqttMsg == s.gotMqttMsg && r.gotMqttPing == s.gotMqttPing && r.mqttMsg == s.mqttMsg
    ensures r.connected == s.connected && r.log == s.log
    ensures packetSize == 0 ==> r == s
    ensures packetSize != 0 ==> r.gotLoraPacket && r.loraMsg == incoming && DecimalValue(r.loraRSSI) == rssi
  {
    DecimalRoundTrip(rssi);
    if packetSize == 0 then s
    else s.(gotLoraPacket := true, loraMsg := incoming, loraRSSI := Decimal(rssi))
  }

  /**
   * onMQTTReceive(topic, payload, length): the payload is cut at `length`
   * and read back as a C string; the two topic tests are independent.
   */
  function MqttReceived(s: Relay, cfg: Config, topic: string, payload: string, length: nat): (r: Relay)
    requires length <= |payload|
    ensures r.gotLoraPacket == s.gotLoraPacket && r.loraMsg == s.loraMsg && r.loraRSSI == s.loraRSSI
    ensures r.connected == s.connected && r.log == s.log
    ensures SameCString(topic, cfg.topicIn) ==> r.gotMqttMsg && |r.mqttMsg| <= length && NoNul(r.mqttMsg)
    ensures !SameCString(topic, cfg.topicIn) ==> r.gotMqttMsg == s.gotMqttMsg && r.mqttMsg == s.mqttMsg
    ensures r.gotMqttPing <==> s.gotMqttPing || SameCString(topic, cfg.topicPing)
  {
    var s1 := if SameCString(topic, cfg.topicIn)
      then s.(gotMqttMsg := true, mqttMsg := CString(payload[..length]))
      else s;
    if SameCString(topic, cfg.topicPing) then s1.(gotMqttPing := true) else s1
  }

  /** The session drops between steps: client.connected() turns false. */
  function SessionDropped(s: Relay): Relay
  {
    s.(connected := false)
  }

  /** The effects of a successful client.connect, in order. */
  function Announce(cfg: Config): seq<Effect>
  {
    [Publish(cfg.topicPingReply, Announcement), Subscribe(cfg.topicPing), Subscribe(cfg.topicIn)]
  }

  /**
   * reconnectMQTT over a finite sequence of connect outcomes: retry while not
   * connected; the first success announces and subscribes.
   */
  function Reconnect(s: Relay, cfg: Config, outcomes: seq<bool>): (r: Relay)
    ensures r.connected <==> s.connected || true in outcomes
    ensures !s.connected && true in outcomes ==> r == s.(connected := true, log := s.log + Announce(cfg))
    ensures s.connected || true !in outcomes ==> r == s
    decreases |outcomes|
  {
    if s.connected || outcomes == [] then s
    else if outcomes[0] then s.(connected := true, log := s.log + Announce(cfg))
    else Reconnect(s, cfg, outcomes[1..])
  }

  /** Whether a relay step gets past the reconnect call. */
  predicate Completes(s: Relay, outcomes: seq<bool>)
  {
    s.connected || true in outcomes
  }

  /** Branch 1 of loop(): publish the radio payload to the out topic. */
  function ForwardLora(s: Relay, cfg: Config): Relay
  {
    if s.gotLoraPacket
    then s.(log := s.log + [Publish(cfg.topicOut, CString(s.loraMsg))], gotLoraPacket := false)
    else s
  }

  /** Branch 2 of loop(): send the MQTT payload over the radio, then re-arm receive. */
  function ForwardMqtt(s: Relay): Relay
  {
    if s.gotMqttMsg
    then
      var sent := s.(log := s.log + [LoRaSend(s.mqttMsg)], gotMqttMsg := false);
      sent.(log := sent.log + [LoRaReceive])
    else s
  }

  /** Branch 3 of loop(): answer the ping. */
  function AnswerPing(s: Relay, cfg: Config): Relay
  {
    if s.gotMqttPing
    then s.(log := s.log + [Publish(cfg.topicPingReply, AliveReply)], gotMqttPing := false)
    else s
  }

  /** The unconditional client.loop() call. */
  function Housekeep(s: Relay): Relay
  {
    s.(log := s.log + [Pump])
  }

  /**
   * One call of loop(). When no outcome succeeds the firmware is still
   * blocked inside reconnectMQTT, so nothing after it happens.
   */
  function Step(s: Relay, cfg: Config, outcomes: seq<bool>): (r: Relay)
    ensures |s.log| <= |r.log| && r.log[..|s.log|] == s.log
    ensures !Completes(s, outcomes) ==> r == s
    ensures Completes(s, outcomes) ==> r.connected && !r.gotLoraPacket && !r.gotMqttMsg && !r.gotMqttPing
    ensures r.loraMsg == s.loraMsg && r.loraRSSI == s.loraRSSI && r.mqttMsg == s.mqttMsg
  {
    var c := if s.connected then s else Reconnect(s, cfg, outcomes);
    if !c.connected then c
    else Housekeep(AnswerPing(ForwardMqtt(ForwardLora(c, cfg)), cfg))
  }

  /**
   * Reference statement of the relay effects of one step, read off the
   * flags on entry, in the fixed order radio-to-network, network-to-radio,
   * ping reply.
   */
  function RelayEffects(s: Relay, cfg: Config): seq<Effect>
  {
    (if s.gotLoraPacket then [Publish(cfg.topicOut, CString(s.loraMsg))] else [])
    + (if s.gotMqttMsg then [LoRaSend(s.mqttMsg), LoRaReceive] else [])
    + (if s.gotMqttPing then [Publish(cfg.topicPingReply, AliveReply)] else [])
  }

  /**
   * What can happen to the relay: one of the two callbacks, the session
   * dropping, or one call of loop() with the outcomes of its connect attempts.
   */
  datatype Event =
    | RadioPacket(size: int, packet: string, rssi: int)
    | MqttMessage(topic: string, payload: string, length: nat)
    | SessionLost
    | Iteration(outcomes: seq<bool>)

  /** The MQTT client hands the callback a buffer of at least `length` bytes. */
  predicate WellFormed(e: Event)
  {
    e.MqttMessage? ==> e.length <= |e.payload|
  }

  predicate WellFormedTrace(trace: seq<Event>)
  {
    forall i :: 0 <= i < |trace| ==> WellFormed(trace[i])
  }

  function Apply(s: Relay, cfg: Config, e: Event): Relay
    requires WellFormed(e)
  {
    match e
    case RadioPacket(size, packet, rssi) => LoraReceived(s, size, packet, rssi)
    case MqttMessage(topic, payload, length) => MqttReceived(s, cfg, topic, payload, length)
    case SessionLost => SessionDropped(s)
    case Iteration(outcomes) => Step(s, cfg, outcomes)
  }

  /** The events of a trace applied in order; the effect log only ever grows. */
  function Run(s: Relay, cfg: Config, trace: seq<Event>): (r: Relay)
    requires WellFormedTrace(trace)
    ensures |s.log| <= |r.log| && r.log[..|s.log|] == s.log
    decreases |trace|
  {
    if trace == [] then s
    else
      var next := Apply(s, cfg, trace[0]);
      assert |s.log| <= |next.log| && next.log[..|s.log|] == s.log;
      var r := Run(next, cfg, trace[1..]);
      assert r.log[..|s.log|] == r.log[..|next.log|][..|s.log|];
      r
  }

  /** How often an effect occurs in a log. */
  function Count(log: seq<Effect>, e: Effect): nat
  {
    if log == [] then 0 else (if log[0] == e then 1 else 0) + Count(log[1..], e)
  }
}

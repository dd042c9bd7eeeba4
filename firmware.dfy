/**
 * The firmware's globals and entry points as one object: each callback and
 * the loop body update the fields in place and append their external effects
 * to `log`. Each callback, the session drop, the reconnect loop and the loop
 * body are proved to move the object exactly as the corresponding EventRelay
 * transition moves its abstract value State().
 */
module Firmware {
  import opened CStrings
  import opened EventRelay

  /**
   * The `while (LoRa.available()) incoming += (char)LoRa.read();` loop:
   * `packet` is what the radio's receive buffer yields, byte by byte.
   */
  method ReadPacket(packet: string) returns (incoming: string)
    ensures incoming == packet
  {
    incoming := "";
    var i := 0;
    while i < |packet|
      invariant i <= |packet|
      invariant incoming == packet[..i]
    {
      incoming := incoming + [packet[i]];
      i := i + 1;
    }
  }

  class Gateway {
    const cfg: Config

    var gotLoraPacket: bool
    var loraMsg: string
    var loraRSSI: string
    var gotMqttMsg: bool
    var gotMqttPing: bool
    var mqttMsg: string

    /** What client.connected() currently reports. */
    var connected: bool
    /** Every external effect performed so far, oldest first. */
    var log: seq<Effect>

    ghost function State(): Relay
      reads this
    {
      Relay(gotLoraPacket, loraMsg, loraRSSI, gotMqttMsg, gotMqttPing, mqttMsg, connected, log)
    }

    /** The globals at power-up: no event pending, empty slots, no session yet. */
    constructor (cfg: Config)
      ensures this.cfg == cfg
      ensures State() == Init()
    {
      this.cfg := cfg;
      gotLoraPacket, loraMsg, loraRSSI := false, "", "";
      gotMqttMsg, gotMqttPing, mqttMsg := false, false, "";
      connected, log := false, [];
    }

    /** The radio receive callback. */
    method OnLoraReceive(packetSize: int, packet: string, rssi: int)
      modifies this
      ensures State() == LoraReceived(old(State()), packetSize, packet, rssi)
    {
      if packetSize == 0 {
        return;
      }
      var incoming := ReadPacket(packet);
      gotLoraPacket := true;
      loraMsg := incoming;
      loraRSSI := Decimal(rssi);
    }

    /** The MQTT message callback; `payload` holds at least `length` bytes. */
    method OnMqttReceive(topic: string, payload: string, length: nat)
      requires length <= |payload|
      modifies this
      ensures State() == MqttReceived(old(State()), cfg, topic, payload, length)
    {
      var terminated := CString(payload[..length]);
      if SameCString(topic, cfg.topicIn) {
        gotMqttMsg := true;
        mqttMsg := terminated;
      }
      if SameCString(topic, cfg.topicPing) {
        gotMqttPing := true;
      }
    }

    /** The session drops: client.connected() turns false between steps. */
    method ConnectionLost()
      modifies this
      ensures State() == SessionDropped(old(State()))
    {
      connected := false;
    }

    /** sendLoraMessage: one radio transmission. */
    method SendLoraMessage(outgoing: string)
      modifies this
      ensures State() == old(State()).(log := old(log) + [LoRaSend(outgoing)])
    {
      log := log + [LoRaSend(outgoing)];
    }

    /**
     * reconnectMQTT, retrying while disconnected over the outcomes of
     * successive client.connect calls; `attempts` is how many were made.
     */
    method ReconnectMqtt(outcomes: seq<bool>) returns (attempts: nat)
      modifies this
      ensures State() == Reconnect(old(State()), cfg, outcomes)
      ensures attempts <= |outcomes|
      ensures old(connected) ==> attempts == 0
      ensures forall i :: 0 <= i < attempts - 1 ==> !outcomes[i]
      ensures !old(connected) && connected ==> 0 < attempts && outcomes[attempts - 1]
      ensures !connected ==> attempts == |outcomes|
    {
      attempts := 0;
      while !connected && attempts < |outcomes|
        invariant attempts <= |outcomes|
        invariant Reconnect(State(), cfg, outcomes[attempts..]) == Reconnect(old(State()), cfg, outcomes)
        invariant old(connected) ==> attempts == 0
        invariant forall i :: 0 <= i < attempts - 1 ==> !outcomes[i]
        invariant !connected ==> forall i :: 0 <= i < attempts ==> !outcomes[i]
        invariant !old(connected) && connected ==> 0 < attempts && outcomes[attempts - 1]
      {
        if outcomes[attempts] {
          connected := true;
          log := log + [Publish(cfg.topicPingReply, Announcement)];
          log := log + [Subscribe(cfg.topicPing)];
          log := log + [Subscribe(cfg.topicIn)];
        }
        attempts := attempts + 1;
      }
    }

    /**
     * One call of loop(). `completed` is false when no connect attempt
     * succeeded, i.e. the firmware would still be blocked in reconnectMQTT.
     */
    method Loop(outcomes: seq<bool>) returns (completed: bool)
      modifies this
      ensures State() == Step(old(State()), cfg, outcomes)
      ensures completed <==> Completes(old(State()), outcomes)
    {
      if !connected {
        var _ := ReconnectMqtt(outcomes);
      }
      completed := connected;
      if !completed {
        return;
      }

      if gotLoraPacket {
        log := log + [Publish(cfg.topicOut, CString(loraMsg))];
        gotLoraPacket := false;
      }

      if gotMqttMsg {
        SendLoraMessage(mqttMsg);
        gotMqttMsg := false;
        log := log + [LoRaReceive];
      }

      if gotMqttPing {
        log := log + [Publish(cfg.topicPingReply, AliveReply)];
        gotMqttPing := false;
      }

      log := log + [Pump];
    }
  }
}

/**
 * What the firmware's routing contract promises, stated over the relay
 * transitions: last write wins in every slot, fixed dispatch order, each
 * pending event consumed once per step, topic classification, and no relay
 * branch before the session is up.
 */
module RelayProperties {
  import opened CStrings
  import opened EventRelay

  // ---------------------------------------------------------------------------
  // onLoraReceive

  /** A zero-length packet changes no flag, no slot and performs no effect. */
  lemma LoraEmptyPacketIgnored(s: Relay, incoming: string, rssi: int)
    ensures LoraReceived(s, 0, incoming, rssi) == s
  {
  }

  /** A nonempty packet raises the radio flag and fills both radio slots; nothing else changes. */
  lemma LoraPacketStored(s: Relay, packetSize: int, incoming: string, rssi: int)
    requires packetSize != 0
    ensures var r := LoraReceived(s, packetSize, incoming, rssi);
      r.gotLoraPacket && r.loraMsg == incoming && r.loraRSSI == Decimal(rssi)
      && DecimalValue(r.loraRSSI) == rssi
      && r.gotMqttMsg == s.gotMqttMsg && r.gotMqttPing == s.gotMqttPing && r.mqttMsg == s.mqttMsg
      && r.connected == s.connected && r.log == s.log
  {
    DecimalRoundTrip(rssi);
  }

  /** A second packet before the relay runs overwrites the first entirely: no queueing. */
  lemma LoraLastWriteWins(s: Relay, size1: int, first: string, rssi1: int, size2: int, second: string, rssi2: int)
    requires size2 != 0
    ensures LoraReceived(LoraReceived(s, size1, first, rssi1), size2, second, rssi2)
         == LoraReceived(s, size2, second, rssi2)
  {
  }

  // ---------------------------------------------------------------------------
  // onMQTTReceive

  /**
   * Topic classification: the inbound flag and slot follow a match on the
   * inbound topic, the ping flag a match on the ping topic, independently;
   * the radio slots, the session and the log never change.
   */
  lemma MqttClassification(s: Relay, cfg: Config, topic: string, payload: string, length: nat)
    requires length <= |payload|
    ensures var r := MqttReceived(s, cfg, topic, payload, length);
      (r.gotMqttMsg <==> s.gotMqttMsg || SameCString(topic, cfg.topicIn))
      && (r.gotMqttPing <==> s.gotMqttPing || SameCString(topic, cfg.topicPing))
      && r.mqttMsg == (if SameCString(topic, cfg.topicIn) then CString(payload[..length]) else s.mqttMsg)
      && r.gotLoraPacket == s.gotLoraPacket && r.loraMsg == s.loraMsg && r.loraRSSI == s.loraRSSI
      && r.connected == s.connected && r.log == s.log
  {
  }

  /** With NUL-free topic names, `strcmp` classification is plain string equality. */
  lemma MqttClassificationPlain(s: Relay, cfg: Config, topic: string, payload: string, length: nat)
    requires length <= |payload|
    requires NoNul(topic) && NoNul(cfg.topicIn) && NoNul(cfg.topicPing)
    ensures var r := MqttReceived(s, cfg, topic, payload, length);
      (r.gotMqttMsg <==> s.gotMqttMsg || topic == cfg.topicIn)
      && (r.gotMqttPing <==> s.gotMqttPing || topic == cfg.topicPing)
      && r.mqttMsg == (if topic == cfg.topicIn then CString(payload[..length]) else s.mqttMsg)
  {
    MqttClassification(s, cfg, topic, payload, length);
    SameCStringPlain(topic, cfg.topicIn);
    SameCStringPlain(topic, cfg.topicPing);
  }

  /** On the inbound topic the stored text is the payload up to its first NUL within `length`. */
  lemma MqttInboundStoresPrefix(s: Relay, cfg: Config, topic: string, payload: string, length: nat)
    requires length <= |payload|
    requires SameCString(topic, cfg.topicIn)
    ensures var m := MqttReceived(s, cfg, topic, payload, length).mqttMsg;
      |m| <= length && m == payload[..|m|] && NoNul(m)
      && (|m| < length ==> payload[|m|] == NUL)
  {
  }

  /** A NUL-free inbound payload is stored verbatim. */
  lemma MqttInboundVerbatim(s: Relay, cfg: Config, topic: string, payload: string)
    requires SameCString(topic, cfg.topicIn)
    requires NoNul(payload)
    ensures MqttReceived(s, cfg, topic, payload, |payload|).mqttMsg == payload
  {
  }

  /** On the ping topic only the ping flag is raised; the content is ignored. */
  lemma MqttPingOnlyFlag(s: Relay, cfg: Config, topic: string, payload: string, length: nat)
    requires length <= |payload|
    requires SameCString(topic, cfg.topicPing) && !SameCString(topic, cfg.topicIn)
    ensures MqttReceived(s, cfg, topic, payload, length) == s.(gotMqttPing := true)
  {
  }

  /** A message on any other topic leaves the relay unchanged. */
  lemma MqttOtherTopicIgnored(s: Relay, cfg: Config, topic: string, payload: string, length: nat)
    requires length <= |payload|
    requires !SameCString(topic, cfg.topicPing) && !SameCString(topic, cfg.topicIn)
    ensures MqttReceived(s, cfg, topic, payload, length) == s
  {
  }

  /** A second inbound message before the relay runs replaces the first one's text. */
  lemma MqttLastWriteWins(s: Relay, cfg: Config, t1: string, p1: string, l1: nat, t2: string, p2: string, l2: nat)
    requires l1 <= |p1| && l2 <= |p2|
    requires SameCString(t2, cfg.topicIn)
    ensures var r := MqttReceived(MqttReceived(s, cfg, t1, p1, l1), cfg, t2, p2, l2);
      r.gotMqttMsg && r.mqttMsg == CString(p2[..l2])
  {
  }

  // ---------------------------------------------------------------------------
  // reconnectMQTT and loop

  /**
   * The effects of a step that gets past reconnect: the announcement and the
   * two subscriptions if the session was down, then each relay effect whose
   * flag was set on entry in the fixed order, then the pump.
   */
  lemma StepLog(s: Relay, cfg: Config, outcomes: seq<bool>)
    requires Completes(s, outcomes)
    ensures Step(s, cfg, outcomes).log
         == s.log + (if s.connected then [] else Announce(cfg)) + RelayEffects(s, cfg) + [Pump]
  {
  }

  /** After a step that gets past reconnect, the session is up and every flag is clear. */
  lemma StepClearsFlags(s: Relay, cfg: Config, outcomes: seq<bool>)
    requires Completes(s, outcomes)
    ensures var r := Step(s, cfg, outcomes);
      r.connected && !r.gotLoraPacket && !r.gotMqttMsg && !r.gotMqttPing
  {
  }

  /** A step never touches the payload slots or the signal-strength slot. */
  lemma StepKeepsSlots(s: Relay, cfg: Config, outcomes: seq<bool>)
    ensures var r := Step(s, cfg, outcomes);
      r.loraMsg == s.loraMsg && r.mqttMsg == s.mqttMsg && r.loraRSSI == s.loraRSSI
  {
  }

  /** While no connect attempt succeeds, the relay is blocked: nothing is forwarded or changed. */
  lemma StepBlockedWhileDisconnected(s: Relay, cfg: Config, outcomes: seq<bool>)
    requires !Completes(s, outcomes)
    ensures Step(s, cfg, outcomes) == s
  {
  }

  /** The signal strength never reaches an effect: steps from states differing only in it agree. */
  lemma RssiNotForwarded(s: Relay, cfg: Config, outcomes: seq<bool>, rssi: string)
    ensures Step(s.(loraRSSI := rssi), cfg, outcomes) == Step(s, cfg, outcomes).(loraRSSI := rssi)
  {
  }

  /** With no event pending on a live session a step only pumps the MQTT client. */
  lemma IdleStepOnlyPumps(s: Relay, cfg: Config, outcomes: seq<bool>)
    requires s.connected && !s.gotLoraPacket && !s.gotMqttMsg && !s.gotMqttPing
    ensures Step(s, cfg, outcomes) == s.(log := s.log + [Pump])
  {
  }

  /** Forwarding is idempotent: a second step with no new event forwards nothing. */
  lemma SecondStepOnlyPumps(s: Relay, cfg: Config, first: seq<bool>, second: seq<bool>)
    requires Completes(s, first)
    ensures var r := Step(s, cfg, first);
      Step(r, cfg, second) == r.(log := r.log + [Pump])
  {
  }

  /** The log only grows: a step appends to what was performed before. */
  lemma StepExtendsLog(s: Relay, cfg: Config, outcomes: seq<bool>)
    ensures var r := Step(s, cfg, outcomes);
      |s.log| <= |r.log| && r.log[..|s.log|] == s.log
  {
  }

  // ---------------------------------------------------------------------------
  // Exactly-once delivery

  lemma {:induction false} CountConcat(a: seq<Effect>, b: seq<Effect>, e: Effect)
    ensures Count(a + b, e) == Count(a, e) + Count(b, e)
    decreases |a|
  {
    if a == [] {
      assert a + b == b;
    } else {
      assert (a + b)[1..] == a[1..] + b;
      CountConcat(a[1..], b, e);
    }
  }

  lemma CountSingle(x: Effect, e: Effect)
    ensures Count([x], e) == if x == e then 1 else 0
  {
  }

  lemma CountPair(x: Effect, y: Effect, e: Effect)
    ensures Count([x, y], e) == (if x == e then 1 else 0) + (if y == e then 1 else 0)
  {
    assert [x, y] == [x] + [y];
    CountConcat([x], [y], e);
    CountSingle(x, e);
    CountSingle(y, e);
  }

  /** Neither the announcement nor the subscriptions are a radio send or a publish off the ping-reply topic. */
  lemma CountAnnounce(cfg: Config, e: Effect)
    requires e.LoRaSend? || (e.Publish? && e.topic != cfg.topicPingReply)
    ensures Count(Announce(cfg), e) == 0
  {
    var a := Announce(cfg);
    assert a == [a[0]] + [a[1], a[2]];
    CountConcat([a[0]], [a[1], a[2]], e);
    CountSingle(a[0], e);
    CountPair(a[1], a[2], e);
  }

  lemma CountRelayEffects(s: Relay, cfg: Config, e: Effect)
    requires e.LoRaSend? || (e.Publish? && e.topic != cfg.topicPingReply)
    ensures Count(RelayEffects(s, cfg), e)
         == (if s.gotLoraPacket && e == Publish(cfg.topicOut, CString(s.loraMsg)) then 1 else 0)
          + (if s.gotMqttMsg && e == LoRaSend(s.mqttMsg) then 1 else 0)
  {
    var lora := if s.gotLoraPacket then [Publish(cfg.topicOut, CString(s.loraMsg))] else [];
    var mqtt := if s.gotMqttMsg then [LoRaSend(s.mqttMsg), LoRaReceive] else [];
    var ping := if s.gotMqttPing then [Publish(cfg.topicPingReply, AliveReply)] else [];
    CountConcat(lora + mqtt, ping, e);
    CountConcat(lora, mqtt, e);
    if s.gotLoraPacket { CountSingle(Publish(cfg.topicOut, CString(s.loraMsg)), e); }
    if s.gotMqttMsg { CountPair(LoRaSend(s.mqttMsg), LoRaReceive, e); }
    if s.gotMqttPing { CountSingle(Publish(cfg.topicPingReply, AliveReply), e); }
  }

  /** Of the effects one completed step appends, how many are `e`. */
  lemma CountStep(s: Relay, cfg: Config, outcomes: seq<bool>, e: Effect)
    requires Completes(s, outcomes)
    requires e.LoRaSend? || (e.Publish? && e.topic != cfg.topicPingReply)
    ensures var r := Step(s, cfg, outcomes);
      |s.log| <= |r.log|
      && Count(r.log[|s.log|..], e)
         == (if s.gotLoraPacket && e == Publish(cfg.topicOut, CString(s.loraMsg)) then 1 else 0)
          + (if s.gotMqttMsg && e == LoRaSend(s.mqttMsg) then 1 else 0)
  {
    StepLog(s, cfg, outcomes);
    var ann := if s.connected then [] else Announce(cfg);
    var r := Step(s, cfg, outcomes);
    assert r.log[|s.log|..] == ann + RelayEffects(s, cfg) + [Pump];
    CountConcat(ann + RelayEffects(s, cfg), [Pump], e);
    CountConcat(ann, RelayEffects(s, cfg), e);
    CountSingle(Pump, e);
    if !s.connected { CountAnnounce(cfg, e); }
    CountRelayEffects(s, cfg, e);
  }

  /** The pair `x, y` spliced in after `front` sits at indices `|front|` and `|front| + 1`. */
  lemma PairAt(front: seq<Effect>, x: Effect, y: Effect, back: seq<Effect>)
    ensures var log := front + [x, y] + back;
      |front| < |log| - 1 && log[|front|] == x && log[|front| + 1] == y
  {
  }

  /** A pending inbound message is sent over the radio and receive is re-armed right after it. */
  lemma SendThenReceive(s: Relay, cfg: Config, outcomes: seq<bool>)
    requires Completes(s, outcomes) && s.gotMqttMsg
    ensures var r := Step(s, cfg, outcomes);
      exists i :: |s.log| <= i < |r.log| - 1 && r.log[i] == LoRaSend(s.mqttMsg) && r.log[i + 1] == LoRaReceive
  {
    StepLog(s, cfg, outcomes);
    var ann := if s.connected then [] else Announce(cfg);
    var lora := if s.gotLoraPacket then [Publish(cfg.topicOut, CString(s.loraMsg))] else [];
    var ping := if s.gotMqttPing then [Publish(cfg.topicPingReply, AliveReply)] else [];
    var front := s.log + ann + lora;
    var log := Step(s, cfg, outcomes).log;
    assert log == front + [LoRaSend(s.mqttMsg), LoRaReceive] + (ping + [Pump]);
    PairAt(front, LoRaSend(s.mqttMsg), LoRaReceive, ping + [Pump]);
    assert |s.log| <= |front|;
  }

  lemma {:induction false} CountAbsent(log: seq<Effect>, e: Effect)
    requires forall j :: 0 <= j < |log| ==> log[j] != e
    ensures Count(log, e) == 0
    decreases |log|
  {
    if log != [] {
      CountAbsent(log[1..], e);
    }
  }

  // ---------------------------------------------------------------------------
  // Traces of events

  predicate NoRadio(trace: seq<Event>)
  {
    forall i :: 0 <= i < |trace| ==> !trace[i].RadioPacket?
  }

  /** No message on the inbound topic: nothing overwrites the MQTT slot. */
  predicate NoInbound(trace: seq<Event>, cfg: Config)
  {
    forall i :: 0 <= i < |trace| ==> !(trace[i].MqttMessage? && SameCString(trace[i].topic, cfg.topicIn))
  }

  /** Only callbacks and session drops: no call of loop(). */
  predicate CallbacksOnly(trace: seq<Event>)
  {
    forall i :: 0 <= i < |trace| ==> !trace[i].Iteration?
  }

  lemma {:induction false} RunConcat(s: Relay, cfg: Config, a: seq<Event>, b: seq<Event>)
    requires WellFormedTrace(a) && WellFormedTrace(b)
    ensures WellFormedTrace(a + b) && Run(s, cfg, a + b) == Run(Run(s, cfg, a), cfg, b)
    decreases |a|
  {
    if a == [] {
      assert a + b == b;
    } else {
      assert (a + b)[1..] == a[1..] + b;
      RunConcat(Apply(s, cfg, a[0]), cfg, a[1..], b);
    }
  }

  /**
   * One callback or session drop performs no effect, and leaves the flag and
   * slot of every kind it does not deliver untouched.
   */
  lemma CallbackKeeps(s: Relay, cfg: Config, e: Event)
    requires WellFormed(e) && !e.Iteration?
    ensures var r := Apply(s, cfg, e);
      r.log == s.log
      && (!e.RadioPacket? ==> r.gotLoraPacket == s.gotLoraPacket && r.loraMsg == s.loraMsg)
      && (!(e.MqttMessage? && SameCString(e.topic, cfg.topicIn)) ==> r.gotMqttMsg == s.gotMqttMsg && r.mqttMsg == s.mqttMsg)
  {
    match e
    case RadioPacket(size, packet, rssi) =>
    case MqttMessage(topic, payload, length) =>
      MqttClassification(s, cfg, topic, payload, length);
    case SessionLost =>
  }

  /**
   * Callbacks and session drops between steps perform no effect, and leave
   * the flag and slot of every kind they do not deliver untouched.
   */
  lemma {:induction false} CallbacksKeepLog(s: Relay, cfg: Config, trace: seq<Event>)
    requires WellFormedTrace(trace) && CallbacksOnly(trace)
    ensures var r := Run(s, cfg, trace);
      r.log == s.log
      && (NoRadio(trace) ==> r.gotLoraPacket == s.gotLoraPacket && r.loraMsg == s.loraMsg)
      && (NoInbound(trace, cfg) ==> r.gotMqttMsg == s.gotMqttMsg && r.mqttMsg == s.mqttMsg)
    decreases |trace|
  {
    if trace != [] {
      var next := Apply(s, cfg, trace[0]);
      CallbackKeeps(s, cfg, trace[0]);
      assert CallbacksOnly(trace[1..]);
      assert NoRadio(trace) ==> NoRadio(trace[1..]);
      assert NoInbound(trace, cfg) ==> NoInbound(trace[1..], cfg);
      CallbacksKeepLog(next, cfg, trace[1..]);
      assert Run(s, cfg, trace) == Run(next, cfg, trace[1..]);
    }
  }

  /** A publish to the out topic. */
  predicate PublishesOut(e: Effect, cfg: Config)
  {
    e.Publish? && e.topic == cfg.topicOut
  }

  /** No effect of the sequence publishes to the out topic. */
  predicate NoneOut(effects: seq<Effect>, cfg: Config)
  {
    forall k :: 0 <= k < |effects| ==> !PublishesOut(effects[k], cfg)
  }

  /** No effect of the sequence is a radio send. */
  predicate NoneSent(effects: seq<Effect>)
  {
    forall k :: 0 <= k < |effects| ==> !effects[k].LoRaSend?
  }

  /** Neither half publishes to the out topic exactly when the concatenation does not. */
  lemma NoneOutConcat(a: seq<Effect>, b: seq<Effect>, cfg: Config)
    ensures NoneOut(a + b, cfg) <==> NoneOut(a, cfg) && NoneOut(b, cfg)
  {
    assert forall k :: 0 <= k < |a| ==> (a + b)[k] == a[k];
    assert forall k :: 0 <= k < |b| ==> (a + b)[|a| + k] == b[k];
  }

  /** Neither half sends over the radio exactly when the concatenation does not. */
  lemma NoneSentConcat(a: seq<Effect>, b: seq<Effect>)
    ensures NoneSent(a + b) <==> NoneSent(a) && NoneSent(b)
  {
    assert forall k :: 0 <= k < |a| ==> (a + b)[k] == a[k];
    assert forall k :: 0 <= k < |b| ==> (a + b)[|a| + k] == b[k];
  }

  /** A step from a state with no radio packet pending publishes nothing to the out topic. */
  lemma StepNoOutPublish(s: Relay, cfg: Config, outcomes: seq<bool>)
    requires !s.gotLoraPacket && cfg.topicOut != cfg.topicPingReply
    ensures var r := Step(s, cfg, outcomes);
      !r.gotLoraPacket && |s.log| <= |r.log| && r.log[..|s.log|] == s.log && NoneOut(r.log[|s.log|..], cfg)
  {
    StepExtendsLog(s, cfg, outcomes);
    if Completes(s, outcomes) {
      StepLog(s, cfg, outcomes);
      StepClearsFlags(s, cfg, outcomes);
      var ann := if s.connected then [] else Announce(cfg);
      assert NoneOut(ann, cfg);
      assert NoneOut(RelayEffects(s, cfg), cfg);
      NoneOutConcat(ann, RelayEffects(s, cfg), cfg);
      NoneOutConcat(ann + RelayEffects(s, cfg), [Pump], cfg);
      assert Step(s, cfg, outcomes).log[|s.log|..] == ann + RelayEffects(s, cfg) + [Pump];
    } else {
      assert Step(s, cfg, outcomes).log[|s.log|..] == [];
    }
  }

  /** A step from a state with no inbound message pending sends nothing over the radio. */
  lemma StepNoSend(s: Relay, cfg: Config, outcomes: seq<bool>)
    requires !s.gotMqttMsg
    ensures var r := Step(s, cfg, outcomes);
      !r.gotMqttMsg && |s.log| <= |r.log| && r.log[..|s.log|] == s.log && NoneSent(r.log[|s.log|..])
  {
    StepExtendsLog(s, cfg, outcomes);
    if Completes(s, outcomes) {
      StepLog(s, cfg, outcomes);
      StepClearsFlags(s, cfg, outcomes);
      var ann := if s.connected then [] else Announce(cfg);
      assert NoneSent(ann);
      assert NoneSent(RelayEffects(s, cfg));
      NoneSentConcat(ann, RelayEffects(s, cfg));
      NoneSentConcat(ann + RelayEffects(s, cfg), [Pump]);
      assert Step(s, cfg, outcomes).log[|s.log|..] == ann + RelayEffects(s, cfg) + [Pump];
    } else {
      assert Step(s, cfg, outcomes).log[|s.log|..] == [];
    }
  }

  /** Effects appended in two stretches, neither of which has a property, lack it together. */
  lemma AppendedTwice(a: seq<Effect>, b: seq<Effect>, c: seq<Effect>, cfg: Config)
    requires |a| <= |b| <= |c| && b[..|a|] == a && c[..|b|] == b
    ensures NoneOut(b[|a|..], cfg) && NoneOut(c[|b|..], cfg) ==> NoneOut(c[|a|..], cfg)
    ensures NoneSent(b[|a|..]) && NoneSent(c[|b|..]) ==> NoneSent(c[|a|..])
  {
    assert c[|a|..] == b[|a|..] + c[|b|..];
  }

  /**
   * From a state with no radio event pending, a trace without radio events
   * never publishes to the out topic.
   */
  lemma {:induction false} NoRadioNoOutPublish(s: Relay, cfg: Config, trace: seq<Event>)
    requires WellFormedTrace(trace) && NoRadio(trace)
    requires !s.gotLoraPacket && !SameCString(cfg.topicOut, cfg.topicPingReply)
    ensures var r := Run(s, cfg, trace);
      !r.gotLoraPacket && NoneOut(r.log[|s.log|..], cfg)
    decreases |trace|
  {
    if trace != [] {
      var next := Apply(s, cfg, trace[0]);
      if trace[0].Iteration? {
        StepNoOutPublish(s, cfg, trace[0].outcomes);
      } else {
        CallbackKeeps(s, cfg, trace[0]);
        assert next.log[|s.log|..] == [];
      }
      assert NoRadio(trace[1..]);
      NoRadioNoOutPublish(next, cfg, trace[1..]);
      var r := Run(next, cfg, trace[1..]);
      assert Run(s, cfg, trace) == r;
      AppendedTwice(s.log, next.log, r.log, cfg);
    }
  }

  /**
   * From a state with no inbound message pending, a trace without inbound
   * messages never sends over the radio.
   */
  lemma {:induction false} NoInboundNoSend(s: Relay, cfg: Config, trace: seq<Event>)
    requires WellFormedTrace(trace) && NoInbound(trace, cfg)
    requires !s.gotMqttMsg
    ensures var r := Run(s, cfg, trace);
      !r.gotMqttMsg && NoneSent(r.log[|s.log|..])
    decreases |trace|
  {
    if trace != [] {
      var next := Apply(s, cfg, trace[0]);
      if trace[0].Iteration? {
        StepNoSend(s, cfg, trace[0].outcomes);
      } else {
        CallbackKeeps(s, cfg, trace[0]);
        assert next.log[|s.log|..] == [];
      }
      assert NoInbound(trace[1..], cfg);
      NoInboundNoSend(next, cfg, trace[1..]);
      var r := Run(next, cfg, trace[1..]);
      assert Run(s, cfg, trace) == r;
      AppendedTwice(s.log, next.log, r.log, cfg);
    }
  }

  // ---------------------------------------------------------------------------
  // Exactly-once delivery over a trace

  /**
   * A trace split around its first completed call of loop(): `before` holds
   * only callbacks and session drops, `after` anything.
   */
  lemma SplitAtStep(s: Relay, cfg: Config, first: Event, before: seq<Event>, outcomes: seq<bool>, after: seq<Event>)
    requires WellFormed(first) && WellFormedTrace(before) && WellFormedTrace(after)
    ensures WellFormedTrace([first] + before + [Iteration(outcomes)] + after)
    ensures Run(s, cfg, [first] + before + [Iteration(outcomes)] + after)
         == Run(Step(Run(Apply(s, cfg, first), cfg, before), cfg, outcomes), cfg, after)
  {
    var one := Apply(s, cfg, first);
    assert Run(s, cfg, [first]) == one by {
      assert [first][1..] == [];
    }
    RunConcat(s, cfg, [first], before);
    var mid := Run(one, cfg, before);
    assert Run(mid, cfg, [Iteration(outcomes)]) == Step(mid, cfg, outcomes) by {
      assert [Iteration(outcomes)][1..] == [];
    }
    RunConcat(s, cfg, [first] + before, [Iteration(outcomes)]);
    RunConcat(s, cfg, [first] + before + [Iteration(outcomes)], after);
  }

  /** Effects appended after a prefix that contain no `e` leave the count of `e` since `base` as it was. */
  lemma CountUnchangedBy(base: nat, prefix: seq<Effect>, log: seq<Effect>, e: Effect)
    requires base <= |prefix| <= |log| && log[..|prefix|] == prefix
    requires forall j :: |prefix| <= j < |log| ==> log[j] != e
    ensures Count(log[base..], e) == Count(prefix[base..], e)
  {
    assert log[base..] == prefix[base..] + log[|prefix|..];
    CountConcat(prefix[base..], log[|prefix|..], e);
    CountAbsent(log[|prefix|..], e);
  }

  /** An adjacent pair of effects in a prefix is still there once more effects are appended. */
  lemma AdjacentKept(base: nat, prefix: seq<Effect>, log: seq<Effect>, x: Effect, y: Effect)
    requires |prefix| <= |log| && log[..|prefix|] == prefix
    requires exists i :: base <= i < |prefix| - 1 && prefix[i] == x && prefix[i + 1] == y
    ensures exists i :: base <= i < |log| - 1 && log[i] == x && log[i + 1] == y
  {
    var i :| base <= i < |prefix| - 1 && prefix[i] == x && prefix[i + 1] == y;
    assert log[i] == log[..|prefix|][i] && log[i + 1] == log[..|prefix|][i + 1];
  }

  /**
   * A radio packet P (nonempty, NUL-free) is published verbatim to the out
   * topic exactly once, provided no other radio packet arrives before the
   * next completed call of loop(): MQTT messages and session drops may come
   * in between, and whatever follows without a radio packet never publishes
   * it again.
   */
  lemma RadioPacketPublishedOnce(s: Relay, cfg: Config, size: int, packet: string, rssi: int,
                                 before: seq<Event>, outcomes: seq<bool>, after: seq<Event>)
    requires size != 0 && NoNul(packet)
    requires !SameCString(cfg.topicOut, cfg.topicPingReply)
    requires WellFormedTrace(before) && CallbacksOnly(before) && NoRadio(before)
    requires WellFormedTrace(after) && NoRadio(after)
    requires Completes(Run(LoraReceived(s, size, packet, rssi), cfg, before), outcomes)
    ensures WellFormedTrace([RadioPacket(size, packet, rssi)] + before + [Iteration(outcomes)] + after)
    ensures var r := Run(s, cfg, [RadioPacket(size, packet, rssi)] + before + [Iteration(outcomes)] + after);
      |s.log| <= |r.log| && Count(r.log[|s.log|..], Publish(cfg.topicOut, packet)) == 1
  {
    var e := Publish(cfg.topicOut, packet);
    SplitAtStep(s, cfg, RadioPacket(size, packet, rssi), before, outcomes, after);
    var s1 := LoraReceived(s, size, packet, rssi);
    var s2 := Run(s1, cfg, before);
    CallbacksKeepLog(s1, cfg, before);
    CStringOfPlain(packet);
    assert cfg.topicOut != cfg.topicPingReply;
    CountStep(s2, cfg, outcomes, e);
    var s3 := Step(s2, cfg, outcomes);
    StepClearsFlags(s2, cfg, outcomes);
    NoRadioNoOutPublish(s3, cfg, after);
    var r := Run(s3, cfg, after);
    forall j | |s3.log| <= j < |r.log|
      ensures r.log[j] != e
    {
      assert r.log[j] == r.log[|s3.log|..][j - |s3.log|];
    }
    CountUnchangedBy(|s.log|, s3.log, r.log, e);
  }

  /**
   * From a state with message Q pending, a completed step followed by events
   * without inbound messages sends Q exactly once, re-arming receive right after.
   */
  lemma SentOnceFrom(s: Relay, cfg: Config, outcomes: seq<bool>, after: seq<Event>)
    requires s.gotMqttMsg && Completes(s, outcomes)
    requires WellFormedTrace(after) && NoInbound(after, cfg)
    ensures var r := Run(Step(s, cfg, outcomes), cfg, after);
      |s.log| <= |r.log| && Count(r.log[|s.log|..], LoRaSend(s.mqttMsg)) == 1
      && exists i :: |s.log| <= i < |r.log| - 1 && r.log[i] == LoRaSend(s.mqttMsg) && r.log[i + 1] == LoRaReceive
  {
    var e := LoRaSend(s.mqttMsg);
    CountStep(s, cfg, outcomes, e);
    SendThenReceive(s, cfg, outcomes);
    var s3 := Step(s, cfg, outcomes);
    StepClearsFlags(s, cfg, outcomes);
    NoInboundNoSend(s3, cfg, after);
    var r := Run(s3, cfg, after);
    forall j | |s3.log| <= j < |r.log|
      ensures r.log[j] != e
    {
      assert r.log[j] == r.log[|s3.log|..][j - |s3.log|];
    }
    CountUnchangedBy(|s.log|, s3.log, r.log, e);
    AdjacentKept(|s.log|, s3.log, r.log, e, LoRaReceive);
  }

  /**
   * An inbound MQTT message Q (NUL-free) is sent verbatim over the radio
   * exactly once, directly followed by re-arming receive, provided no other
   * inbound message arrives before the next completed call of loop(); radio
   * packets, pings and session drops may come in between, and whatever
   * follows without an inbound message never sends it again.
   */
  lemma MqttMessageSentOnce(s: Relay, cfg: Config, topic: string, payload: string,
                            before: seq<Event>, outcomes: seq<bool>, after: seq<Event>)
    requires SameCString(topic, cfg.topicIn) && NoNul(payload)
    requires WellFormedTrace(before) && CallbacksOnly(before) && NoInbound(before, cfg)
    requires WellFormedTrace(after) && NoInbound(after, cfg)
    requires Completes(Run(MqttReceived(s, cfg, topic, payload, |payload|), cfg, before), outcomes)
    ensures WellFormedTrace([MqttMessage(topic, payload, |payload|)] + before + [Iteration(outcomes)] + after)
    ensures var r := Run(s, cfg, [MqttMessage(topic, payload, |payload|)] + before + [Iteration(outcomes)] + after);
      |s.log| <= |r.log| && Count(r.log[|s.log|..], LoRaSend(payload)) == 1
      && exists i :: |s.log| <= i < |r.log| - 1 && r.log[i] == LoRaSend(payload) && r.log[i + 1] == LoRaReceive
  {
    SplitAtStep(s, cfg, MqttMessage(topic, payload, |payload|), before, outcomes, after);
    var s1 := MqttReceived(s, cfg, topic, payload, |payload|);
    MqttInboundVerbatim(s, cfg, topic, payload);
    CallbacksKeepLog(s1, cfg, before);
    SentOnceFrom(Run(s1, cfg, before), cfg, outcomes, after);
  }

  // ---------------------------------------------------------------------------
  // Scenarios

  /** The radio delivers "hello" at -80 dBm: the next step publishes exactly "hello". */
  lemma HelloScenario(s: Relay, cfg: Config)
    requires s.connected && !s.gotMqttMsg && !s.gotMqttPing
    ensures Step(LoraReceived(s, 5, "hello", -80), cfg, []).log
         == s.log + [Publish(cfg.topicOut, "hello"), Pump]
  {
    var s1 := LoraReceived(s, 5, "hello", -80);
    assert s1 == s.(gotLoraPacket := true, loraMsg := "hello", loraRSSI := Decimal(-80));
    CStringOfPlain("hello");
    StepLog(s1, cfg, []);
    assert RelayEffects(s1, cfg) == [Publish(cfg.topicOut, "hello")];
  }

  /** The network delivers "cmd123" on the inbound topic: the next step sends it and re-arms receive. */
  lemma CommandScenario(s: Relay, cfg: Config)
    requires s.connected && !s.gotLoraPacket && !s.gotMqttPing
    requires !SameCString(cfg.topicIn, cfg.topicPing)
    ensures Step(MqttReceived(s, cfg, cfg.topicIn, "cmd123", 6), cfg, []).log
         == s.log + [LoRaSend("cmd123"), LoRaReceive, Pump]
  {
    MqttInboundVerbatim(s, cfg, cfg.topicIn, "cmd123");
  }

  /** An empty message on the ping topic: the next step publishes the alive reply. */
  lemma PingScenario(s: Relay, cfg: Config)
    requires s.connected && !s.gotLoraPacket && !s.gotMqttMsg
    requires !SameCString(cfg.topicPing, cfg.topicIn)
    ensures Step(MqttReceived(s, cfg, cfg.topicPing, "", 0), cfg, []).log
         == s.log + [Publish(cfg.topicPingReply, "I am alive ;)"), Pump]
  {
  }
}

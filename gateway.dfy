/**
 * The gateway node (super_node/chat_2.py): the leaf's routing, extended
 * with relay destinations (ids starting with '+') that are acknowledged
 * and published upstream to the broker, and a second loop that passes
 * packets arriving from the broker straight onto the radio.
 *
 * Unlike the leaf, the gateway's radio loop has no exception handler: a
 * frame that does not decode, or a message that does not decrypt, ends
 * the listener thread. The model calls that outcome `Halt`.
 */
module Gateway {
  import opened Wrappers
  import opened Text
  import opened Cipher
  import opened Packets
  import opened Codec
  import opened Ledger
  import opened Node
  import Rylr998

  /** The node id this gateway is configured with. */
  const GatewayNodeId := "FIXED170"

  /** The event line the MQTT modem prints when a subscribed message arrives. */
  const MqttMarker := "%MQTTEVU:\"PUBRCV\""

  datatype GatewayState = GatewayState(
    seen: set<string>,
    acks: map<string, bool>,
    known: set<string>,
    radio: seq<Packet>,
    uplink: seq<Publication>,
    draws: nat)

  const Initial := GatewayState({}, map[], {}, [], [], 0)

  /** The radio listener after some input: still running, or ended by an exception. */
  datatype Poll = Continue(state: GatewayState) | Halt(state: GatewayState)

  /** What one pass of the MQTT loop did with a modem line. */
  datatype MqttOutcome = NoEvent | Forwarded(packetUuid: string) | Caught

  function SendPacketStep(s: GatewayState, p: Packet): GatewayState {
    s.(radio := s.radio + [p])
  }

  function SendAckStep(c: Config, s: GatewayState, received: Packet, now: int): GatewayState {
    SendPacketStep(s, AckPacket(c.ids(s.draws), AckMessage(received.uuid, c.nodeId, now))).(draws := s.draws + 1)
  }

  function SendAnnounceStep(c: Config, s: GatewayState, now: int): GatewayState {
    SendPacketStep(s, AnnouncePacket(c.ids(s.draws), AnnounceMessage(c.nodeId, now))).(draws := s.draws + 1)
  }

  function SendDiscoverStep(c: Config, s: GatewayState, now: int): GatewayState {
    SendPacketStep(s, DiscoverPacket(c.ids(s.draws), DiscoverMessage(now))).(draws := s.draws + 1)
  }

  function SendMessageStep(c: Config, s: GatewayState, destination: string, content: string, now: int): GatewayState {
    var id := c.ids(s.draws);
    var m := NetworkMessage(c.nodeId, now, EncryptText(c.codec, c.cipher, c.ivs(s.draws), content), destination);
    SendPacketStep(s, NetworkPacket(id, m)).(acks := Register(s.acks, id), draws := s.draws + 1)
  }

  /** A relay destination: the message is for the relay server behind the broker. */
  predicate IsRelayDestination(destination: string) {
    StartsWith(destination, "+")
  }

  /** The gateway handles a network message itself when it is addressed to it or to the relay. */
  predicate Accepts(c: Config, destination: string) {
    destination == c.nodeId || IsRelayDestination(destination)
  }

  function NetworkStep(c: Config, s: GatewayState, p: Packet, now: int): Poll {
    if !Accepts(c, p.network.destination) then Continue(s)
    else if DecryptText(c.codec, c.cipher, p.network.content).Err? then Halt(s)
    else
      var s1 := SendAckStep(c, s, p, now);
      if IsRelayDestination(p.network.destination) then
        Continue(s1.(uplink := s1.uplink + [Publication(UplinkTopic, TransportText(c.codec, p))]))
      else Continue(s1)
  }

  function DispatchStep(c: Config, s: GatewayState, p: Packet, now: int): Poll {
    match p.kind
    case NetworkMessageType => NetworkStep(c, s, p, now)
    case AckMessageType => Continue(s.(acks := Acknowledge(s.acks, p.ack.messageId)))
    case DiscoverMessageType => Continue(SendAnnounceStep(c, s, now))
    case AnnounceMessageType => Continue(s.(known := s.known + {p.announce.nodeId}))
    case UnrecognisedType(_) => Continue(s)
  }

  /** `urlsafe_b64decode` (which refuses non-ASCII text) followed by parsing; None when either raises. */
  function DecodeField(c: Codec, text: string): Option<Packet> {
    if !IsAscii(text) then None
    else
      match c.b64Decode(text)
      case None => None
      case Some(bytes) => c.parse(bytes)
  }

  /** One pass of the radio loop, for what `receive_data` returned. */
  function PollStep(c: Config, s: GatewayState, incoming: Option<string>, now: int): Poll {
    if incoming.None? || incoming.value == "" then Continue(s)
    else
      var parts := Split(incoming.value, ',');
      if |parts| < 3 then Continue(s)
      else
        match DecodeField(c.codec, parts[2])
        case None => Halt(s)
        case Some(p) =>
          if p.uuid in s.seen then Continue(s)
          else DispatchStep(c, s.(seen := s.seen + {p.uuid}), p, now)
  }

  /** The radio loop over successive polls; after a Halt nothing more is read. */
  function ListenStep(c: Config, s: GatewayState, polls: seq<Option<string>>, now: int): Poll
    decreases |polls|
  {
    if polls == [] then Continue(s)
    else
      match ListenStep(c, s, polls[..|polls| - 1], now)
      case Halt(h) => Halt(h)
      case Continue(s1) => PollStep(c, s1, polls[|polls| - 1], now)
  }

  /** One pass of the MQTT loop: a modem line and, when it is read, the payload line after it. */
  function MqttStep(c: Config, s: GatewayState, event: Option<string>, payload: Option<string>): (GatewayState, MqttOutcome) {
    if event.None? || !Contains(event.value, MqttMarker) then (s, NoEvent)
    else if |Split(event.value, ',')| != 5 || payload.None? then (s, Caught)
    else
      match DecodeField(c.codec, payload.value)
      case None => (s, Caught)
      case Some(p) => (SendPacketStep(s, p), Forwarded(p.uuid))
  }

  function MqttListenStep(c: Config, s: GatewayState, events: seq<(Option<string>, Option<string>)>): (GatewayState, seq<MqttOutcome>)
    decreases |events|
  {
    if events == [] then (s, [])
    else
      var (s1, out1) := MqttListenStep(c, s, events[..|events| - 1]);
      var e := events[|events| - 1];
      var (s2, o) := MqttStep(c, s1, e.0, e.1);
      (s2, out1 + [o])
  }

  // ---------------------------------------------------------------------
  // Properties of the specification
  // ---------------------------------------------------------------------

  /** Lines with fewer than three comma-separated fields are ignored. */
  lemma ShortLineIgnored(c: Config, s: GatewayState, line: string, now: int)
    requires |Split(line, ',')| < 3
    ensures PollStep(c, s, Some(line), now) == Continue(s)
  {
  }

  /** The packet text a gateway reads from a report line is the frame's data field. */
  lemma ReportLineDataField(f: Rylr998.RcvFrame)
    requires ',' !in f.data
    ensures |Split(Rylr998.RcvLine(f), ',')| >= 3
    ensures Split(Rylr998.RcvLine(f), ',')[2] == f.data
  {
    var a, l, r := IntToString(f.address), IntToString(f.length), IntToString(f.rssi);
    Rylr998.IntToStringShape(f.length);
    Rylr998.JoinFive(a, l, f.data, r, f.snr, ',');
    var tail := r + [','] + f.snr;
    assert ',' !in Rylr998.RcvPrefix + a by {
      Rylr998.IntToStringShape(f.address);
    }
    assert Rylr998.RcvLine(f) == (Rylr998.RcvPrefix + a) + [','] + (l + [','] + (f.data + [','] + tail));
    SplitAtFirstSep(Rylr998.RcvPrefix + a, ',', l + [','] + (f.data + [','] + tail));
    SplitAtFirstSep(l, ',', f.data + [','] + tail);
    SplitAtFirstSep(f.data, ',', tail);
  }

  /** A packet's text, as any lawful encoder writes it, decodes back to the packet with no repair. */
  lemma DecodeTransportText(c: Codec, p: Packet)
    requires Lawful(c)
    ensures DecodeField(c, TransportText(c, p)) == Some(p)
  {
    TransportTextIsAscii(TransportText(c, p));
  }

  /** The report line of a frame carrying a packet is read as that packet. */
  lemma ReportLineDecodes(c: Config, f: Rylr998.RcvFrame, p: Packet)
    requires Lawful(c.codec) && f.data == TransportText(c.codec, p)
    ensures |Split(Rylr998.RcvLine(f), ',')| >= 3
    ensures DecodeField(c.codec, Split(Rylr998.RcvLine(f), ',')[2]) == Some(p)
  {
    TransportTextHasNoComma(c.codec, p);
    ReportLineDataField(f);
    DecodeTransportText(c.codec, p);
  }

  /** A frame that does not decode ends the listener, with the state as it was. */
  lemma UndecodableFrameHalts(c: Config, s: GatewayState, line: string, now: int)
    requires |Split(line, ',')| >= 3 && DecodeField(c.codec, Split(line, ',')[2]).None?
    ensures PollStep(c, s, Some(line), now) == Halt(s)
  {
  }

  /** Once the listener has halted, later input changes nothing. */
  lemma {:induction false} HaltAbsorbs(c: Config, s: GatewayState, xs: seq<Option<string>>, ys: seq<Option<string>>, now: int)
    requires ListenStep(c, s, xs, now).Halt?
    ensures ListenStep(c, s, xs + ys, now) == ListenStep(c, s, xs, now)
    decreases |ys|
  {
    if ys == [] {
      assert xs + ys == xs;
    } else {
      var ys' := ys[..|ys| - 1];
      assert (xs + ys)[..|xs + ys| - 1] == xs + ys';
      HaltAbsorbs(c, s, xs, ys', now);
    }
  }

  lemma DispatchKeepsSeen(c: Config, s: GatewayState, p: Packet, now: int)
    ensures DispatchStep(c, s, p, now).state.seen == s.seen
  {
  }

  /** A duplicate id changes nothing; a first delivery is recorded before dispatch, whatever dispatch then does. */
  lemma DuplicateSkipped(c: Config, s: GatewayState, line: string, p: Packet, now: int)
    requires |Split(line, ',')| >= 3 && DecodeField(c.codec, Split(line, ',')[2]) == Some(p)
    ensures p.uuid in s.seen ==> PollStep(c, s, Some(line), now) == Continue(s)
    ensures p.uuid !in s.seen ==> PollStep(c, s, Some(line), now).state.seen == s.seen + {p.uuid}
  {
    if p.uuid !in s.seen {
      DispatchKeepsSeen(c, s.(seen := s.seen + {p.uuid}), p, now);
    }
  }

  /** A network message for neither this node nor the relay is dropped: nothing is sent or published. */
  lemma ForeignMessageDropped(c: Config, s: GatewayState, p: Packet, now: int)
    requires p.kind == NetworkMessageType && !Accepts(c, p.network.destination)
    ensures DispatchStep(c, s, p, now) == Continue(s)
  {
  }

  /** A message it accepts but cannot decrypt ends the listener before any ack is sent. */
  lemma UndecryptableHalts(c: Config, s: GatewayState, p: Packet, now: int)
    requires p.kind == NetworkMessageType && Accepts(c, p.network.destination)
    requires DecryptText(c.codec, c.cipher, p.network.content).Err?
    ensures DispatchStep(c, s, p, now) == Halt(s)
  {
  }

  /**
   * An accepted message that decrypts is acknowledged exactly once, with
   * message_id the received packet id; a relay message is also published
   * once to the uplink topic, as text that decodes to the very packet
   * received. Nothing else changes.
   */
  lemma AcceptedMessageAcked(c: Config, s: GatewayState, p: Packet, now: int)
    requires p.kind == NetworkMessageType && Accepts(c, p.network.destination)
    requires DecryptText(c.codec, c.cipher, p.network.content).Ok?
    ensures DispatchStep(c, s, p, now).Continue?
    ensures var s' := DispatchStep(c, s, p, now).state;
      && |s'.radio| == |s.radio| + 1 && s'.radio[..|s.radio|] == s.radio
      && s'.radio[|s.radio|].kind == AckMessageType
      && s'.radio[|s.radio|].ack.messageId == p.uuid
      && s'.radio[|s.radio|].ack.nodeId == c.nodeId
      && (IsRelayDestination(p.network.destination) ==>
            && |s'.uplink| == |s.uplink| + 1 && s'.uplink[..|s.uplink|] == s.uplink
            && s'.uplink[|s.uplink|].topic == UplinkTopic
            && (Lawful(c.codec) ==> DecodeField(c.codec, s'.uplink[|s.uplink|].payload) == Some(p)))
      && (!IsRelayDestination(p.network.destination) ==> s'.uplink == s.uplink)
      && s'.seen == s.seen && s'.acks == s.acks && s'.known == s.known
  {
    var s' := DispatchStep(c, s, p, now).state;
    assert s'.radio[..|s.radio|] == s.radio;
    if IsRelayDestination(p.network.destination) {
      assert s'.uplink[..|s.uplink|] == s.uplink;
      if Lawful(c.codec) {
        DecodeTransportText(c.codec, p);
      }
    }
  }

  /** Acks flip only existing entries and never add a key; nothing is sent. */
  lemma AckHandled(c: Config, s: GatewayState, p: Packet, now: int)
    requires p.kind == AckMessageType
    ensures var s' := DispatchStep(c, s, p, now).state;
      && DispatchStep(c, s, p, now).Continue?
      && s'.acks.Keys == s.acks.Keys
      && (p.ack.messageId in s.acks ==> s'.acks == s.acks[p.ack.messageId := true])
      && (p.ack.messageId !in s.acks ==> s'.acks == s.acks)
      && s'.radio == s.radio && s'.uplink == s.uplink
  {
  }

  /** A discover causes exactly one announce carrying this node's id, and is not itself relayed. */
  lemma DiscoverAnswered(c: Config, s: GatewayState, p: Packet, now: int)
    requires p.kind == DiscoverMessageType
    ensures var s' := DispatchStep(c, s, p, now).state;
      && DispatchStep(c, s, p, now).Continue?
      && |s'.radio| == |s.radio| + 1 && s'.radio[..|s.radio|] == s.radio
      && s'.radio[|s.radio|].kind == AnnounceMessageType
      && s'.radio[|s.radio|].announce.nodeId == c.nodeId
      && s'.uplink == s.uplink && s'.acks == s.acks && s'.known == s.known
  {
    var s' := DispatchStep(c, s, p, now).state;
    assert s'.radio[..|s.radio|] == s.radio;
  }

  /** An announce records its node id and sends nothing. */
  lemma AnnounceRecorded(c: Config, s: GatewayState, p: Packet, now: int)
    requires p.kind == AnnounceMessageType
    ensures DispatchStep(c, s, p, now) == Continue(s.(known := s.known + {p.announce.nodeId}))
    ensures p.announce.nodeId in s.known ==> DispatchStep(c, s, p, now) == Continue(s)
  {
    if p.announce.nodeId in s.known {
      assert s.known + {p.announce.nodeId} == s.known;
    }
  }

  /** `send_message` sends one network message and then registers its id, and only it, as pending. */
  lemma SendMessageEffect(c: Config, s: GatewayState, destination: string, content: string, now: int)
    ensures var s' := SendMessageStep(c, s, destination, content, now);
      && |s'.radio| == |s.radio| + 1 && s'.radio[..|s.radio|] == s.radio
      && var p := s'.radio[|s.radio|];
      && p.kind == NetworkMessageType && IsHexId(p.uuid)
      && p.network.nodeId == c.nodeId && p.network.destination == destination
      && s'.acks.Keys == s.acks.Keys + {p.uuid} && !s'.acks[p.uuid]
      && (forall k :: k in s.acks && k != p.uuid ==> s'.acks[k] == s.acks[k])
      && (Lawful(c.codec) && Inverts(c.cipher) ==> DecryptText(c.codec, c.cipher, p.network.content) == Ok(content))
      && s'.seen == s.seen && s'.uplink == s.uplink
  {
    var s' := SendMessageStep(c, s, destination, content, now);
    assert s'.radio[..|s.radio|] == s.radio;
    if Lawful(c.codec) && Inverts(c.cipher) {
      DecryptEncryptText(c.codec, c.cipher, c.ivs(s.draws), content);
    }
  }

  /**
   * A packet from the broker is put on the radio unchanged, with its own id,
   * and is not recorded as seen; every other outcome changes nothing.
   */
  lemma MqttPassThrough(c: Config, s: GatewayState, event: Option<string>, payload: Option<string>)
    ensures var (s', o) := MqttStep(c, s, event, payload);
      && (o.Forwarded? ==>
            (&& payload.Some? && DecodeField(c.codec, payload.value).Some?
             && s' == s.(radio := s.radio + [DecodeField(c.codec, payload.value).value])
             && o.packetUuid == DecodeField(c.codec, payload.value).value.uuid))
      && (!o.Forwarded? ==> s' == s)
      && s'.seen == s.seen
  {
  }

  /** A marked five-field event whose payload is a packet's text forwards exactly that packet. */
  lemma MqttForwardsPacket(c: Config, s: GatewayState, event: string, p: Packet)
    requires Lawful(c.codec)
    requires Contains(event, MqttMarker) && |Split(event, ',')| == 5
    ensures MqttStep(c, s, Some(event), Some(TransportText(c.codec, p))) == (s.(radio := s.radio + [p]), Forwarded(p.uuid))
  {
    DecodeTransportText(c.codec, p);
  }

  // ---------------------------------------------------------------------
  // The gateway, with its state updated in place
  // ---------------------------------------------------------------------

  class GatewayNode {
    const config: Config
    var seen: set<string>
    var acks: map<string, bool>
    var known: set<string>
    var radio: seq<Packet>
    var uplink: seq<Publication>
    var draws: nat

    function State(): GatewayState
      reads this
    {
      GatewayState(seen, acks, known, radio, uplink, draws)
    }

    /** The program's stores start empty, and its node id is the fixed `NODE_ID`. */
    constructor (codec: Codec, cipher: BlockCipher, ids: nat -> HexId, ivs: nat -> Block)
      ensures config == Config(GatewayNodeId, codec, cipher, ids, ivs) && State() == Initial
    {
      config := Config(GatewayNodeId, codec, cipher, ids, ivs);
      seen, acks, known, radio, uplink, draws := {}, map[], {}, [], [], 0;
    }

    method Draw() returns (id: HexId, iv: Block)
      modifies this`draws
      ensures id == config.ids(old(draws)) && iv == config.ivs(old(draws)) && draws == old(draws) + 1
    {
      id, iv := config.ids(draws), config.ivs(draws);
      draws := draws + 1;
    }

    method SendPacket(p: Packet)
      modifies this`radio
      ensures radio == old(radio) + [p]
    {
      radio := radio + [p];
    }

    method SendMessage(destination: string, content: string, now: int)
      modifies this
      ensures State() == SendMessageStep(config, old(State()), destination, content, now)
    {
      var id, iv := Draw();
      SendPacket(NetworkPacket(id, NetworkMessage(config.nodeId, now, EncryptText(config.codec, config.cipher, iv, content), destination)));
      acks := acks[id := false];
    }

    method SendAck(received: Packet, now: int)
      modifies this
      ensures State() == SendAckStep(config, old(State()), received, now)
    {
      var id, _ := Draw();
      SendPacket(AckPacket(id, AckMessage(received.uuid, config.nodeId, now)));
    }

    method SendDiscoverMessage(now: int)
      modifies this
      ensures State() == SendDiscoverStep(config, old(State()), now)
    {
      var id, _ := Draw();
      SendPacket(DiscoverPacket(id, DiscoverMessage(now)));
    }

    method SendAnnounceMessage(now: int)
      modifies this
      ensures State() == SendAnnounceStep(config, old(State()), now)
    {
      var id, _ := Draw();
      SendPacket(AnnouncePacket(id, AnnounceMessage(config.nodeId, now)));
    }

    /** Returns false when `aes_decrypt` raised, which ends the listener. */
    method ProcessNetworkMessage(p: Packet, now: int) returns (ok: bool)
      modifies this
      ensures NetworkStep(config, old(State()), p, now) == (if ok then Continue(State()) else Halt(State()))
    {
      var destination := p.network.destination;
      ok := true;
      if destination != config.nodeId && !StartsWith(destination, "+") {
        return;
      }
      if DecryptText(config.codec, config.cipher, p.network.content).Err? {
        ok := false;
        return;
      }
      SendAck(p, now);
      if StartsWith(destination, "+") {
        uplink := uplink + [Publication(UplinkTopic, TransportText(config.codec, p))];
      }
    }

    method ProcessAckMessage(p: Packet)
      modifies this
      ensures State() == old(State()).(acks := Acknowledge(old(acks), p.ack.messageId))
    {
      var id := p.ack.messageId;
      if id in acks {
        acks := acks[id := true];
      }
    }

    method ProcessDiscoverMessage(now: int)
      modifies this
      ensures State() == SendAnnounceStep(config, old(State()), now)
    {
      SendAnnounceMessage(now);
    }

    method ProcessAnnounceMessage(p: Packet)
      modifies this
      ensures State() == old(State()).(known := old(known) + {p.announce.nodeId})
    {
      var id := p.announce.nodeId;
      if id !in known {
        known := known + {id};
      } else {
        assert known + {id} == known;
      }
    }

    /** One pass of the radio loop; false when an exception ended it. */
    method Poll(incoming: Option<string>, now: int) returns (ok: bool)
      modifies this
      ensures PollStep(config, old(State()), incoming, now) == (if ok then Continue(State()) else Halt(State()))
    {
      ok := true;
      if incoming.None? || incoming.value == "" {
        return;
      }
      var parts := Split(incoming.value, ',');
      if |parts| < 3 {
        return;
      }
      var decoded := DecodeField(config.codec, parts[2]);
      if decoded.None? {
        ok := false;
        return;
      }
      var p := decoded.value;
      if p.uuid in seen {
        return;
      }
      seen := seen + {p.uuid};
      match p.kind {
        case NetworkMessageType =>
          ok := ProcessNetworkMessage(p, now);
        case AckMessageType =>
          ProcessAckMessage(p);
        case DiscoverMessageType =>
          ProcessDiscoverMessage(now);
        case AnnounceMessageType =>
          ProcessAnnounceMessage(p);
        case UnrecognisedType(_) =>
      }
    }

    /** `listen_for_data` over successive polls; stops at the first exception. */
    method ListenForData(polls: seq<Option<string>>, now: int) returns (ok: bool)
      modifies this
      ensures ListenStep(config, old(State()), polls, now) == (if ok then Continue(State()) else Halt(State()))
    {
      ghost var s0 := State();
      var i := 0;
      ok := true;
      while i < |polls|
        invariant 0 <= i <= |polls|
        invariant ListenStep(config, s0, polls[..i], now) == Continue(State())
      {
        assert polls[..i + 1][..i] == polls[..i];
        ok := Poll(polls[i], now);
        if !ok {
          HaltAbsorbs(config, s0, polls[..i + 1], polls[i + 1..], now);
          assert polls[..i + 1] + polls[i + 1..] == polls;
          return;
        }
        i := i + 1;
      }
      assert polls[..|polls|] == polls;
    }

    method HandleMqtt(event: Option<string>, payload: Option<string>) returns (outcome: MqttOutcome)
      modifies this
      ensures (State(), outcome) == MqttStep(config, old(State()), event, payload)
    {
      if event.None? || !Contains(event.value, MqttMarker) {
        return NoEvent;
      }
      if |Split(event.value, ',')| != 5 || payload.None? {
        return Caught;
      }
      var decoded := DecodeField(config.codec, payload.value);
      if decoded.None? {
        return Caught;
      }
      SendPacket(decoded.value);
      outcome := Forwarded(decoded.value.uuid);
    }

    /** `listen_for_mqtt` over successive modem lines: every exception is caught. */
    method ListenForMqtt(events: seq<(Option<string>, Option<string>)>) returns (outcomes: seq<MqttOutcome>)
      modifies this
      ensures (State(), outcomes) == MqttListenStep(config, old(State()), events)
    {
      outcomes := [];
      var i := 0;
      while i < |events|
        invariant 0 <= i <= |events|
        invariant (State(), outcomes) == MqttListenStep(config, old(State()), events[..i])
      {
        var o := HandleMqtt(events[i].0, events[i].1);
        outcomes := outcomes + [o];
        assert events[..i + 1][..i] == events[..i];
        i := i + 1;
      }
      assert events[..|events|] == events;
    }
  }
}

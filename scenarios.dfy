/**
 * End-to-end runs of the protocol across programs: a leaf-to-leaf message
 * and its ack, a leaf's text message relayed by the gateway to the relay
 * server, and the relay's chunked answer carried back by the gateway to the
 * leaf that asked. Every program shares the same libraries and key.
 */
module Scenarios {
  import opened Wrappers
  import opened Text
  import opened Cipher
  import opened Packets
  import opened Codec
  import opened Ledger
  import opened Node
  import Rylr998
  import Leaf
  import Gateway
  import Relay

  /** A packet as a leaf's transceiver reports it: the frame's data is the packet's text. */
  function OnAir(c: Codec, p: Packet, meta: Rylr998.RcvFrame): Leaf.RxItem {
    var t := TransportText(c, p);
    Leaf.FrameItem(meta.(length := |t|, data := t))
  }

  /** The report line a transceiver writes for a packet's frame is read back as that frame. */
  lemma ReportedFrameReadBack(c: Codec, p: Packet, meta: Rylr998.RcvFrame)
    requires Lawful(c)
    requires ',' !in meta.snr && (meta.snr == [] || !IsSpace(meta.snr[|meta.snr| - 1]))
    ensures Rylr998.ReceiveData(Rylr998.RcvLine(OnAir(c, p, meta).frame)) == Rylr998.Frames([OnAir(c, p, meta).frame])
  {
    TransportTextHasNoComma(c, p);
    Rylr998.ReceiveRcvLine(OnAir(c, p, meta).frame);
  }

  lemma OnAirDecodes(c: Config, p: Packet, meta: Rylr998.RcvFrame)
    requires Lawful(c.codec)
    ensures Leaf.Decodes(c, OnAir(c.codec, p, meta), p)
  {
    Leaf.DecodeTransportText(c.codec, p, 0);
    var t := TransportText(c.codec, p);
    assert t[..|t| - 0] == t;
  }

  /**
   * Leaf X sends a text to leaf Y. Y reports it received from X with the
   * text sent and answers with an ack; when X receives that ack, X reports
   * it and the entry for the message flips to ACKED.
   */
  lemma MessageDeliveredAndAcked(
    cx: Config, cy: Config, sx: Leaf.NodeState, sy: Leaf.NodeState,
    text: string, now: int, metaY: Rylr998.RcvFrame, metaX: Rylr998.RcvFrame)
    requires Lawful(cx.codec) && Inverts(cx.cipher) && cy.codec == cx.codec && cy.cipher == cx.cipher
    requires cx.ids(sx.draws) !in sy.seen && cy.ids(sy.draws) !in sx.seen
    ensures
      var (sx1, sent) := Leaf.SendMessageStep(cx, sx, cy.nodeId, text, now);
      && |sx1.radio| == |sx.radio| + 1
      && var message := sx1.radio[|sx.radio|];
      && var (sy1, outY) := Leaf.ItemStep(cy, sy, OnAir(cy.codec, message, metaY), now);
      && outY == [Some(Leaf.Received(sent.packetUuid, cx.nodeId, text))]
      && |sy1.radio| == |sy.radio| + 1
      && var ack := sy1.radio[|sy.radio|];
      && var (sx2, outX) := Leaf.ItemStep(cx, sx1, OnAir(cx.codec, ack, metaX), now);
      && outX == [Some(Leaf.Acked(sent.packetUuid))]
      && sent.packetUuid in sx2.acks && sx2.acks[sent.packetUuid]
      && Report(sx2.acks)[sent.packetUuid] == AckedLabel
  {
    var (sx1, sent) := Leaf.SendMessageStep(cx, sx, cy.nodeId, text, now);
    Leaf.SendMessageEffect(cx, sx, cy.nodeId, text, now);
    var message := sx1.radio[|sx.radio|];
    var itemY := OnAir(cy.codec, message, metaY);
    OnAirDecodes(cy, message, metaY);
    assert DecryptText(cy.codec, cy.cipher, message.network.content) == Ok(text);
    Leaf.AddressedMessageAcked(cy, sy, itemY, message, now, text);
    var sy1 := Leaf.ItemStep(cy, sy, itemY, now).0;
    var ack := sy1.radio[|sy.radio|];
    var itemX := OnAir(cx.codec, ack, metaX);
    OnAirDecodes(cx, ack, metaX);
    assert ack.uuid == cy.ids(sy.draws);
    Leaf.AckHandled(cx, sx1, itemX, ack, now);
  }

  /** The report line for a packet, as the gateway's transceiver reads it. */
  function ReportLine(c: Codec, p: Packet, meta: Rylr998.RcvFrame): string {
    Rylr998.RcvLine(OnAir(c, p, meta).frame)
  }

  /**
   * A leaf sends a text to a phone number ('+' but not "+Q"). The gateway
   * acknowledges it and publishes it upstream, and the relay server, given
   * that publication, asks for exactly that text to be sent to that number.
   */
  lemma SmsRelayed(
    cl: Config, cg: Config, cr: Relay.RelayConfig, sl: Leaf.NodeState, sg: Gateway.GatewayState, sr: Relay.RelayState,
    number: string, text: string, now: int, meta: Rylr998.RcvFrame)
    requires Lawful(cl.codec) && Inverts(cl.cipher)
    requires cg.codec == cl.codec && cg.cipher == cl.cipher && cr.codec == cl.codec && cr.cipher == cl.cipher
    requires StartsWith(number, "+") && !StartsWith(number, Relay.QuerySigil)
    requires cl.ids(sl.draws) !in sg.seen
    ensures
      var message := Leaf.SendMessageStep(cl, sl, number, text, now).0.radio[|sl.radio|];
      && Gateway.PollStep(cg, sg, Some(ReportLine(cg.codec, message, meta)), now).Continue?
      && var sg1 := Gateway.PollStep(cg, sg, Some(ReportLine(cg.codec, message, meta)), now).state;
      && |sg1.uplink| == |sg.uplink| + 1
      && sg1.uplink[|sg.uplink|].topic == UplinkTopic
      && |sg1.radio| == |sg.radio| + 1 && sg1.radio[|sg.radio|].ack.messageId == message.uuid
      && Relay.OnMessageStep(cr, sr, sg1.uplink[|sg.uplink|].payload, now)
         == (sr.(texts := sr.texts + [Relay.Sms(number, text)]), Relay.Texted)
  {
    Leaf.SendMessageEffect(cl, sl, number, text, now);
    var message := Leaf.SendMessageStep(cl, sl, number, text, now).0.radio[|sl.radio|];
    var line := ReportLine(cg.codec, message, meta);
    Gateway.ReportLineDecodes(cg, OnAir(cg.codec, message, meta).frame, message);
    var s0 := sg.(seen := sg.seen + {message.uuid});
    Gateway.AcceptedMessageAcked(cg, s0, message, now);
    var sg1 := Gateway.PollStep(cg, sg, Some(line), now).state;
    var payload := sg1.uplink[|sg.uplink|].payload;
    Gateway.DecodeTransportText(cg.codec, message);
    Relay.OtherDestinationTexted(cr, sr, payload, now, message, text);
  }

  /**
   * The relay's answer to a question reaches the leaf that asked: when the
   * gateway takes the i-th reply publication from the broker, it forwards
   * that packet onto the radio unchanged, and the leaf reports it received
   * from "Server" with the i-th chunk as its text; the chunks together are
   * the answer.
   */
  lemma AnswerChunkDelivered(
    cl: Config, cg: Config, cr: Relay.RelayConfig, sl: Leaf.NodeState, sg: Gateway.GatewayState, sr: Relay.RelayState,
    answer: string, i: nat, event: string, now: int, meta: Rylr998.RcvFrame)
    requires Lawful(cr.codec) && Inverts(cr.cipher)
    requires cg.codec == cr.codec && cl.codec == cr.codec && cl.cipher == cr.cipher
    requires i < |Relay.SplitMessage(answer)|
    requires cr.ids(sr.draws + i) !in sl.seen
    requires Contains(event, Gateway.MqttMarker) && |Split(event, ',')| == 5
    ensures
      var chunks := Relay.SplitMessage(answer);
      && var pub := Relay.ReplyPublications(cr, sr.draws, chunks, cl.nodeId, now)[i];
      && pub.topic == DownlinkTopic
      && var (sg1, o) := Gateway.MqttStep(cg, sg, Some(event), Some(pub.payload));
      && o.Forwarded?
      && |sg1.radio| == |sg.radio| + 1
      && var forwarded := sg1.radio[|sg.radio|];
      && forwarded.uuid == o.packetUuid
      && Leaf.ItemStep(cl, sl, OnAir(cl.codec, forwarded, meta), now).1
         == [Some(Leaf.Received(forwarded.uuid, Relay.ServerNodeId, chunks[i]))]
      && Relay.Concat(chunks) == answer
  {
    var chunks := Relay.SplitMessage(answer);
    var reply := Relay.ReplyPacket(cr, sr.draws + i, chunks[i], cl.nodeId, now);
    var pub := Relay.ReplyPublications(cr, sr.draws, chunks, cl.nodeId, now)[i];
    assert pub == Relay.ReplyPublication(cr, sr.draws + i, chunks[i], cl.nodeId, now);
    Gateway.MqttForwardsPacket(cg, sg, event, reply);
    OnAirDecodes(cl, reply, meta);
    DecryptEncryptText(cr.codec, cr.cipher, cr.ivs(sr.draws + i), chunks[i]);
    Leaf.AddressedMessageAcked(cl, sl, OnAir(cl.codec, reply, meta), reply, now, chunks[i]);
    Relay.SplitMessageConcat(answer);
  }
}

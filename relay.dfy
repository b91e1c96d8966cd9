/**
 * The relay server behind the broker (relay_server/relay.py). It receives the
 * packets the gateway publishes upstream, decrypts their content and acts
 * on the destination's sigil: a destination starting with `+Q` is a
 * question for the assistant, whose answer is sent back to the asker in
 * 45-character chunks, one reply packet per chunk; any other destination
 * is a phone number the plaintext is texted to.
 *
 * The assistant and the SMS service are external: the assistant is a
 * parameter (None when the call raises), and a text message is recorded
 * as the request the relay makes.
 */
module Relay {
  import opened Wrappers
  import opened Text
  import opened Cipher
  import opened Packets
  import opened Codec
  import opened Node

  const ChunkSize := 45

  /** The sender id of every reply packet. */
  const ServerNodeId := "Server"

  /** The destination prefix that marks an assistant query. */
  const QuerySigil := "+Q"

  function Min(a: int, b: int): int {
    if a <= b then a else b
  }

  /** `split_message(message)`: the slices `message[i:i+45]` for i = 0, 45, 90, ... below the length. */
  function SplitMessage(m: string): (chunks: seq<string>)
    ensures |chunks| == 0 <==> m == []
    ensures |chunks| > 0 ==> ChunkSize * (|chunks| - 1) < |m| <= ChunkSize * |chunks|
    ensures forall k :: 0 <= k < |chunks| ==> 0 < |chunks[k]| <= ChunkSize
    ensures forall k :: 0 <= k < |chunks| - 1 ==> |chunks[k]| == ChunkSize
  {
    var n := (|m| + 44) / 45;
    seq(n, k requires 0 <= k < n => m[45 * k .. Min(45 * k + 45, |m|)])
  }

  /** The chunks laid end to end. */
  function Concat(chunks: seq<string>): string
    decreases |chunks|
  {
    if chunks == [] then [] else Concat(chunks[..|chunks| - 1]) + chunks[|chunks| - 1]
  }

  lemma {:induction false} ConcatPrefix(m: string, n: nat)
    requires n <= |SplitMessage(m)|
    ensures Concat(SplitMessage(m)[..n]) == m[..Min(45 * n, |m|)]
    decreases n
  {
    var chunks := SplitMessage(m);
    if n == 0 {
      assert chunks[..0] == [];
    } else {
      ConcatPrefix(m, n - 1);
      assert chunks[..n][..n - 1] == chunks[..n - 1];
      assert chunks[..n][n - 1] == m[45 * (n - 1) .. Min(45 * n, |m|)];
      assert m[..45 * (n - 1)] + m[45 * (n - 1) .. Min(45 * n, |m|)] == m[..Min(45 * n, |m|)];
    }
  }

  /** Concatenating the chunks gives back the message. */
  lemma SplitMessageConcat(m: string)
    ensures Concat(SplitMessage(m)) == m
  {
    var chunks := SplitMessage(m);
    ConcatPrefix(m, |chunks|);
    assert chunks[..|chunks|] == chunks;
  }

  /** The relay's configuration: the library functions, random sources, and the assistant. */
  datatype RelayConfig = RelayConfig(
    codec: Codec,
    cipher: BlockCipher,
    ids: nat -> HexId,
    ivs: nat -> Block,
    assistant: string -> Option<string>)

  /** A text message the relay asks the SMS service to send. */
  datatype Sms = Sms(to: string, body: string)

  datatype RelayState = RelayState(published: seq<Publication>, texts: seq<Sms>, draws: nat)

  const Initial := RelayState([], [], 0)

  /** How `on_message` ended for one broker message. */
  datatype Outcome =
    | Uncaught        // base64 decoding raised outside any handler
    | NotParsed       // the packet did not parse; the handler returned
    | Ignored         // not a network message
    | Failed          // decryption, UTF-8 or the assistant raised; the handler caught it
    | Replied(chunks: nat)
    | Texted

  /** The reply packet for one chunk, made with the given draw of the random sources. */
  function ReplyPacket(c: RelayConfig, draw: nat, chunk: string, asker: string, now: int): Packet {
    NetworkPacket(c.ids(draw), NetworkMessage(ServerNodeId, now, EncryptText(c.codec, c.cipher, c.ivs(draw), chunk), asker))
  }

  function ReplyPublication(c: RelayConfig, draw: nat, chunk: string, asker: string, now: int): Publication {
    Publication(DownlinkTopic, TransportText(c.codec, ReplyPacket(c, draw, chunk, asker, now)))
  }

  /** The publications for the chunks, in chunk order, the i-th made with the i-th draw from the given one. */
  function ReplyPublications(c: RelayConfig, draw: nat, chunks: seq<string>, asker: string, now: int): seq<Publication> {
    seq(|chunks|, i requires 0 <= i < |chunks| => ReplyPublication(c, draw + i, chunks[i], asker, now))
  }

  /** `on_message` for one broker payload. */
  function OnMessageStep(c: RelayConfig, s: RelayState, payload: string, now: int): (RelayState, Outcome) {
    match c.codec.b64Decode(payload)
    case None => (s, Uncaught)
    case Some(bytes) =>
      match c.codec.parse(bytes)
      case None => (s, NotParsed)
      case Some(p) =>
        if p.kind != NetworkMessageType then (s, Ignored)
        else
          match DecryptText(c.codec, c.cipher, p.network.content)
          case Err(_) => (s, Failed)
          case Ok(text) =>
            if StartsWith(p.network.destination, QuerySigil) then
              match c.assistant(Strip(text))
              case None => (s, Failed)
              case Some(answer) =>
                var chunks := SplitMessage(answer);
                (s.(published := s.published + ReplyPublications(c, s.draws, chunks, p.network.nodeId, now),
                    draws := s.draws + |chunks|),
                 Replied(|chunks|))
            else (s.(texts := s.texts + [Sms(p.network.destination, text)]), Texted)
  }

  // ---------------------------------------------------------------------
  // Properties of the specification
  // ---------------------------------------------------------------------

  /**
   * What a receiver finds in a reply publication: on the downlink topic, a
   * network message from "Server" to the asker, with a fresh 8-hex-digit id,
   * whose content decrypts to the chunk.
   */
  predicate CarriesReply(c: RelayConfig, pub: Publication, asker: string, chunk: string) {
    && pub.topic == DownlinkTopic
    && c.codec.b64Decode(pub.payload).Some?
    && var q := c.codec.parse(c.codec.b64Decode(pub.payload).value);
    && q.Some?
    && q.value.kind == NetworkMessageType
    && IsHexId(q.value.uuid)
    && q.value.network.nodeId == ServerNodeId
    && q.value.network.destination == asker
    && DecryptText(c.codec, c.cipher, q.value.network.content) == Ok(chunk)
  }

  lemma ReplyPublicationCarries(c: RelayConfig, draw: nat, chunk: string, asker: string, now: int)
    requires Lawful(c.codec) && Inverts(c.cipher)
    ensures CarriesReply(c, ReplyPublication(c, draw, chunk, asker, now), asker, chunk)
  {
    DecryptEncryptText(c.codec, c.cipher, c.ivs(draw), chunk);
  }

  lemma QueryStep(c: RelayConfig, s: RelayState, payload: string, now: int, p: Packet, text: string, answer: string)
    requires c.codec.b64Decode(payload).Some? && c.codec.parse(c.codec.b64Decode(payload).value) == Some(p)
    requires p.kind == NetworkMessageType && StartsWith(p.network.destination, QuerySigil)
    requires DecryptText(c.codec, c.cipher, p.network.content) == Ok(text)
    requires c.assistant(Strip(text)) == Some(answer)
    ensures OnMessageStep(c, s, payload, now)
         == (s.(published := s.published + ReplyPublications(c, s.draws, SplitMessage(answer), p.network.nodeId, now),
                draws := s.draws + |SplitMessage(answer)|),
             Replied(|SplitMessage(answer)|))
  {
  }

  /** Each publication of a sequence built for the chunks is a reply carrying the chunk at its position. */
  lemma ReplyPublicationsCarry(c: RelayConfig, draw: nat, chunks: seq<string>, asker: string, now: int)
    requires Lawful(c.codec) && Inverts(c.cipher)
    ensures |ReplyPublications(c, draw, chunks, asker, now)| == |chunks|
    ensures forall i :: 0 <= i < |chunks| ==> CarriesReply(c, ReplyPublications(c, draw, chunks, asker, now)[i], asker, chunks[i])
  {
    forall i | 0 <= i < |chunks|
      ensures CarriesReply(c, ReplyPublications(c, draw, chunks, asker, now)[i], asker, chunks[i])
    {
      ReplyPublicationCarries(c, draw + i, chunks[i], asker, now);
    }
  }

  /**
   * A question (destination starting with `+Q`) whose answer the assistant
   * gives is answered with one publication per chunk, in chunk order, each
   * a reply to the asker carrying that chunk; the chunks together are the
   * answer. Nothing is texted.
   */
  lemma QueryAnswered(c: RelayConfig, s: RelayState, payload: string, now: int, p: Packet, text: string, answer: string)
    requires Lawful(c.codec) && Inverts(c.cipher)
    requires c.codec.b64Decode(payload).Some? && c.codec.parse(c.codec.b64Decode(payload).value) == Some(p)
    requires p.kind == NetworkMessageType && StartsWith(p.network.destination, QuerySigil)
    requires DecryptText(c.codec, c.cipher, p.network.content) == Ok(text)
    requires c.assistant(Strip(text)) == Some(answer)
    ensures var (s', o) := OnMessageStep(c, s, payload, now);
      && var chunks := SplitMessage(answer);
      && o == Replied(|chunks|)
      && |s'.published| == |s.published| + |chunks| && s'.published[..|s.published|] == s.published
      && (forall i :: 0 <= i < |chunks| ==> CarriesReply(c, s'.published[|s.published| + i], p.network.nodeId, chunks[i]))
      && Concat(chunks) == answer
      && s'.texts == s.texts
  {
    var chunks := SplitMessage(answer);
    var asker := p.network.nodeId;
    var pubs := ReplyPublications(c, s.draws, chunks, asker, now);
    var r := OnMessageStep(c, s, payload, now);
    assert r.0.published == s.published + pubs && r.1 == Replied(|chunks|) && r.0.texts == s.texts by {
      QueryStep(c, s, payload, now, p, text, answer);
    }
    ReplyPublicationsCarry(c, s.draws, chunks, asker, now);
    assert r.0.published[..|s.published|] == s.published;
    forall i | 0 <= i < |chunks|
      ensures CarriesReply(c, r.0.published[|s.published| + i], asker, chunks[i])
    {
      assert r.0.published[|s.published| + i] == pubs[i];
    }
    SplitMessageConcat(answer);
  }

  /** Any other destination, `+` or not, is texted the plaintext; nothing is published. */
  lemma OtherDestinationTexted(c: RelayConfig, s: RelayState, payload: string, now: int, p: Packet, text: string)
    requires c.codec.b64Decode(payload).Some? && c.codec.parse(c.codec.b64Decode(payload).value) == Some(p)
    requires p.kind == NetworkMessageType && !StartsWith(p.network.destination, QuerySigil)
    requires DecryptText(c.codec, c.cipher, p.network.content) == Ok(text)
    ensures OnMessageStep(c, s, payload, now) == (s.(texts := s.texts + [Sms(p.network.destination, text)]), Texted)
  {
  }

  /** Whenever the relay neither replies nor texts, its state is untouched. */
  lemma FailuresChangeNothing(c: RelayConfig, s: RelayState, payload: string, now: int)
    ensures var (s', o) := OnMessageStep(c, s, payload, now);
      (!o.Replied? && !o.Texted? ==> s' == s)
      && (o.Texted? ==> s'.published == s.published && |s'.texts| == |s.texts| + 1)
      && (o.Replied? ==> s'.texts == s.texts)
  {
  }

  /** Packets that are not network messages are ignored. */
  lemma NonNetworkIgnored(c: RelayConfig, s: RelayState, payload: string, now: int, p: Packet)
    requires c.codec.b64Decode(payload).Some? && c.codec.parse(c.codec.b64Decode(payload).value) == Some(p)
    requires p.kind != NetworkMessageType
    ensures OnMessageStep(c, s, payload, now) == (s, Ignored)
  {
  }

  /** A network message whose content does not decrypt is caught: nothing is sent. */
  lemma UndecryptableCaught(c: RelayConfig, s: RelayState, payload: string, now: int, p: Packet)
    requires c.codec.b64Decode(payload).Some? && c.codec.parse(c.codec.b64Decode(payload).value) == Some(p)
    requires p.kind == NetworkMessageType && DecryptText(c.codec, c.cipher, p.network.content).Err?
    ensures OnMessageStep(c, s, payload, now) == (s, Failed)
  {
  }

  // ---------------------------------------------------------------------
  // The server, with its state updated in place
  // ---------------------------------------------------------------------

  class RelayServer {
    const config: RelayConfig
    var published: seq<Publication>
    var texts: seq<Sms>
    var draws: nat

    function State(): RelayState
      reads this
    {
      RelayState(published, texts, draws)
    }

    constructor (config: RelayConfig)
      ensures this.config == config && State() == Initial
    {
      this.config := config;
      published, texts, draws := [], [], 0;
    }

    method Draw() returns (id: HexId, iv: Block)
      modifies this`draws
      ensures id == config.ids(old(draws)) && iv == config.ivs(old(draws)) && draws == old(draws) + 1
    {
      id, iv := config.ids(draws), config.ivs(draws);
      draws := draws + 1;
    }

    method SendSms(destination: string, content: string)
      modifies this`texts
      ensures texts == old(texts) + [Sms(destination, content)]
    {
      texts := texts + [Sms(destination, content)];
    }

    /** The loop over the chunks of an answer: one reply packet published per chunk. */
    method PublishChunks(chunks: seq<string>, asker: string, now: int)
      modifies this`published, this`draws
      ensures published == old(published) + ReplyPublications(config, old(draws), chunks, asker, now)
      ensures draws == old(draws) + |chunks|
    {
      ghost var start := published;
      var i := 0;
      while i < |chunks|
        invariant 0 <= i <= |chunks|
        invariant draws == old(draws) + i
        invariant |published| == |start| + i && published[..|start|] == start
        invariant forall j :: 0 <= j < i ==> published[|start| + j] == ReplyPublication(config, old(draws) + j, chunks[j], asker, now)
      {
        var pub := ReplyPublication(config, draws, chunks[i], asker, now);
        draws := draws + 1;
        published := published + [pub];
        i := i + 1;
      }
      assert published == start + ReplyPublications(config, old(draws), chunks, asker, now);
    }

    method OnMessage(payload: string, now: int) returns (outcome: Outcome)
      modifies this
      ensures (State(), outcome) == OnMessageStep(config, old(State()), payload, now)
    {
      var decoded := config.codec.b64Decode(payload);
      if decoded.None? {
        return Uncaught;
      }
      var parsed := config.codec.parse(decoded.value);
      if parsed.None? {
        return NotParsed;
      }
      var p := parsed.value;
      if p.kind != NetworkMessageType {
        return Ignored;
      }
      var decrypted := DecryptText(config.codec, config.cipher, p.network.content);
      if decrypted.Err? {
        return Failed;
      }
      if StartsWith(p.network.destination, QuerySigil) {
        var answer := config.assistant(Strip(decrypted.value));
        if answer.None? {
          return Failed;
        }
        var chunks := SplitMessage(answer.value);
        PublishChunks(chunks, p.network.nodeId, now);
        outcome := Replied(|chunks|);
      } else {
        SendSms(p.network.destination, decrypted.value);
        outcome := Texted;
      }
    }
  }
}

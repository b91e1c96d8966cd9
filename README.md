# LoRa mesh packet protocol — a Dafny model

This project models the packet protocol engine of a small LoRa mesh. Three
programs take part:

- **Leaf node** (`normal_node/chat.py`, node id `FIXED178`) sends text messages,
  acks, discover and announce packets over a RYLR998 transceiver. It receives
  radio frames, and it keeps three stores: the ids of packets it has seen, an
  acknowledgment ledger for the messages it sent, and the set of nodes it has
  discovered.
- **Gateway** (`super_node/chat_2.py`, node id `FIXED170`) does the same on the
  radio side. It also forwards text messages addressed to a `+...` destination
  to an MQTT topic (`12458Test/pub`). In the other direction it puts packets
  that arrive on `12458Test/sub` back on the air.
- **Relay server** (`relay_server/relay.py`) takes packets from `12458Test/pub`
  and decrypts them. A destination starting with `+Q` turns the text into a
  question for an assistant. The answer is split into 45-character chunks, and
  each chunk goes back to the asker as its own encrypted reply packet. Any
  other destination has the text sent as an SMS to that number.

A packet is a protobuf record: an 8-hex-digit id, a type, and one of the four
sub-messages. It travels as URL-safe base64 text. A network message's content
is `IV ‖ AES-128-CBC(PKCS#7(utf8(text)))`, under the key `b"password"`
zero-padded to 16 bytes.

## How it is modelled

- **Pure parts become functions, each with its properties as lemmas.** These
  are text splitting and integer parsing (`Text`), the key derivation, PKCS#7
  padding and the CBC layout (`Cipher`), the base64 padding repair and the
  encrypt/decrypt pipeline (`Codec`), the acknowledgment ledger (`Ledger`), the
  `+RCV=` report parse (`Rylr998`), and `split_message`
  (`Relay.SplitMessage`).
- **Each program is a class whose fields are the program's module-level
  state.**
  - The fields are the seen set, the ack ledger, the known nodes, the
    transmitted frames, the MQTT publications, and a count of random draws.
  - Each class comes with a specification function per operation on a state
    value, (`Leaf.ItemStep`, `Gateway.PollStep`, `Relay.OnMessageStep`, ...).
  - Each method that handles input or sends a packet has an `ensures` that
    ties its new state and result to that function.
  - The small effects (`Draw`, `SendPacket`, `RetransmitPacket`, `SendSms`,
    `PublishChunks`, `GetDiscoveredNodes`) state their new state or result
    directly.
  - The listening loops are `while` loops whose invariant is the fold of the
    step function over the items processed so far.
  - The protocol properties are lemmas about the step functions.
- **The libraries are opaque.** Base64, protobuf, UTF-8 and the AES block
  permutation are values of `Codec.Codec` and `Cipher.BlockCipher`. Their laws
  (decode inverts encode, parse inverts serialize, decrypt inverts encrypt)
  are the predicates `Codec.Lawful` and `Cipher.Inverts`. These appear only in
  the `requires` of the lemmas that need them.
- **Randomness and time are parameters.** `uuid.uuid4().hex[:8]` and
  `os.urandom(16)` are oracles `ids`/`ivs : nat -> ...`, indexed by a draw
  counter that each packet advances. Timestamps are a `now` parameter.
- **Exceptions become results.**
  - The leaf's `except binascii.Error` and `except Exception` become its two
    error records.
  - The relay's early returns and its caught failures are `Relay.Outcome`
    values.
  - An exception the gateway's listener does not catch is `Gateway.Halt`,
    which ends its loop.
- **`Scenarios` joins the programs end to end.**
  - A message between two leaves is delivered once and then acked.
  - A text message passes from a leaf through the gateway to an SMS.
  - A relay answer passes from the relay through the gateway to the leaf, and
    its chunks reassemble the answer.

In several places the code does something other than what the protocol's
design intends. The model follows the code:

- **The gateway has no exception handling.** A frame that does not decode, or
  content that does not decrypt, ends its listener (`Gateway.UndecodableFrameHalts`,
  `Gateway.UndecryptableHalts`, `Gateway.HaltAbsorbs`). The design means such
  errors to be reported and the loop to go on, as the leaf does.
- **The gateway does not restore missing base64 padding before it decodes**
  (`super_node/chat_2.py:120`). Only the leaf does (`normal_node/chat.py:121`),
  although the design has every receiver tolerate missing padding.
- **The leaf has no separate cipher-error event for undecryptable content.** It
  records a `packet_processing` error, the same record as any other failure
  inside the handler.
- **The leaf's ack handler does not check the ledger state.** It reports
  `ack` for every id in the ledger, including one already acked. The ack
  event is meant for the pending-to-acked transition only.
- **Forwarding is switched off in both node programs.** A message not
  addressed to the node is reported as retransmitted and is not re-sent.
- **The relay treats only `+Q` as the question sigil.** Every other
  destination is sent an SMS, whether or not it starts with `+`.

## Model

| member | source | states |
|---|---|---|
| Text.TrimStart | normal_node/rylr998.py:68 | the result is a suffix of the input, starts with a non-space character, and only spaces were removed |
| Text.TrimEnd | normal_node/rylr998.py:68 | the result is a prefix of the input, ends with a non-space character, and only spaces were removed |
| Text.Split | normal_node/rylr998.py:68 | `str.split(sep)` gives at least one part, and no part contains the separator |
| Text.SplitJoin | normal_node/rylr998.py:68 | splitting the join of separator-free parts gives back those parts |
| Text.JoinSplit | normal_node/rylr998.py:68 | joining the parts of a split gives back the text |
| Text.ParseIntToString | normal_node/rylr998.py:72-75 | `int()` reads back the decimal text of every integer, negative ones included |
| Cipher.DeriveKeyBytes | relay_server/relay.py:25 | `ljust(16, b'\0')[:16]` keeps the first 16 bytes and pads a shorter key with zero bytes to exactly 16 |
| Cipher.AesKeyIsPaddedPassphrase | relay_server/relay.py:25 | the AES key is `password` followed by eight zero bytes |
| Cipher.XorCancels | relay_server/relay.py:32 | xor-ing a block with the same vector twice gives the block back |
| Cipher.PadShape | relay_server/relay.py:35-36 | PKCS#7 output is a whole number of blocks, 1 to 16 bytes longer than the input, ending in copies of the pad length |
| Cipher.UnpadPad | relay_server/relay.py:49-50 | unpadding a padded message gives the message back |
| Cipher.PadUnpad | relay_server/relay.py:49-50 | whatever the unpadder accepts is the padding of what it returns |
| Cipher.CbcRoundTrip | relay_server/relay.py:32-48 | CBC decryption under an inverting block cipher undoes CBC encryption under the same IV |
| Cipher.EncryptLayout | relay_server/relay.py:27-40 | the ciphertext is the 16-byte IV followed by whole blocks, one more block than the message fills |
| Cipher.DecryptEncrypt | relay_server/relay.py:27-51 | `aes_decrypt(aes_encrypt(m)) == m` for every message and IV |
| Cipher.DecryptAcceptsOnlyLayout | relay_server/relay.py:42-51 | decryption fails on input shorter than an IV or not a whole number of blocks |
| Codec.RestorePaddingShape | normal_node/chat.py:121 | the repair appends only `=` characters, fewer than four, up to a multiple of four |
| Codec.RestorePaddingPadded | normal_node/chat.py:121 | text whose length is already a multiple of four is left unchanged |
| Codec.RestorePaddingTolerance | normal_node/chat.py:120-123 | a transport text with up to three trailing `=` stripped is repaired back to itself |
| Codec.TransportTextIsAscii | normal_node/chat.py:95-98 | a packet's base64 text is ASCII, so `.decode()` cannot fail on it |
| Codec.TransportTextHasNoComma | super_node/chat_2.py:117-119 | a packet's base64 text contains no comma, so the report line's third field is exactly that text |
| Codec.DecryptEncryptText | normal_node/chat.py:35-72 | decrypting the encryption of a text under lawful libraries gives the text back |
| Ledger.Register | normal_node/chat.py:101 | a new message is entered as pending and every other entry is unchanged |
| Ledger.Acknowledge | normal_node/chat.py:206-213 | a known id becomes acked, an unknown id changes nothing, and no other entry changes |
| Ledger.AcknowledgeIdempotent | normal_node/chat.py:206-213 | acknowledging twice has the same effect as once |
| Ledger.AcknowledgeAllKeys | normal_node/chat.py:206-213 | acknowledging any sequence of ids never adds or removes ledger entries |
| Ledger.AcknowledgeAllEntry | normal_node/chat.py:206-213 | after a sequence of acks, an entry is acked exactly when it was acked before or its id occurs in the sequence |
| Ledger.Report | normal_node/chat.py:302-303 | the report has the same ids as the ledger, with `ACKED` exactly for acked entries and `PENDING` for the rest |
| Rylr998.ReceiveData | normal_node/rylr998.py:59-79 | a frame is produced only for a stripped line starting with `+RCV=` that has at least five fields; only one frame, and its data field holds no comma |
| Rylr998.ReceiveRcvLine | normal_node/rylr998.py:65-77 | the report line for a frame is parsed back into exactly that frame |
| Rylr998.SendCommandReadBack | normal_node/rylr998.py:51-53 | the `AT+SEND=` command carries the address and the data length as its first two fields and ends with the data |
| Rylr998.SendDataReply | normal_node/rylr998.py:55-57 | the response is returned exactly when it contains the line `+OK`, and None otherwise |
| Leaf.DuplicateIgnored | normal_node/chat.py:130-132 | a frame whose packet id was seen before changes nothing and produces no record |
| Leaf.FirstDeliveryRecorded | normal_node/chat.py:134-150 | the first copy of a packet adds its id to the seen set and is handed to the handler for its type; the new state is the handler's, and the one entry added is the handler's result, or a packet-processing error when the handler raised |
| Leaf.LaterCopySkipped | normal_node/chat.py:130-134 | a second copy of a packet later in the same batch has no effect at all |
| Leaf.DeliveredTwice | normal_node/chat.py:130-134 | listening to two copies of a packet has the same effect as listening to one |
| Leaf.UndecodableFrame | normal_node/chat.py:152-166 | a frame that does not decode gives an error record, and changes nothing else |
| Leaf.ListenAppend | normal_node/chat.py:116-178 | processing a batch in two parts is the same as processing it in one, with the records concatenated |
| Leaf.ListenSeenGrows | normal_node/chat.py:116-178 | the seen set only grows while listening |
| Leaf.ForeignMessageNotSent | normal_node/chat.py:183-191 | a message addressed to another node is reported retransmitted, is not sent, and changes no store |
| Leaf.AddressedMessageAcked | normal_node/chat.py:192-204 | a decryptable message addressed to this node is reported with its sender and plaintext, and one ack for it is sent |
| Leaf.AddressedMessageUndecryptable | normal_node/chat.py:192-197 | a message addressed to this node that does not decrypt gives a packet-processing error and sends nothing |
| Leaf.AckHandled | normal_node/chat.py:206-213 | an ack for a ledger entry marks it acked and reports it; an ack for an unknown id changes nothing and gives a `None` entry |
| Leaf.DiscoverAnswered | normal_node/chat.py:215-224 | a discover packet is answered with one announce for this node |
| Leaf.AnnounceRecorded | normal_node/chat.py:226-237 | an announce adds the node to the known set and sends nothing |
| Leaf.UnknownTypeReported | normal_node/chat.py:144-148 | a packet of an unrecognised type gives an unknown-packet record and changes no store |
| Leaf.SendMessageEffect | normal_node/chat.py:74-108 | sending transmits one network packet to the destination whose content decrypts to the text, enters its id as pending, and leaves every other ledger entry as it was |
| Leaf.DecodeTransportText | normal_node/chat.py:119-126 | a frame carrying a packet's base64 text, with up to three `=` stripped, decodes to that packet |
| Leaf.LeafNode.constructor | normal_node/chat.py:15-22 | a node starts with empty stores and nothing transmitted, and its node id is `FIXED178` |
| Leaf.LeafNode.Draw | normal_node/chat.py:87 | each packet consumes the next random id and IV |
| Leaf.LeafNode.SendMessage | normal_node/chat.py:74-108 | the new state and record are those of the send step |
| Leaf.LeafNode.SendAck | normal_node/chat.py:239-253 | transmits one ack packet for the message id |
| Leaf.LeafNode.RetransmitPacket | normal_node/chat.py:255-257 | transmits nothing |
| Leaf.LeafNode.SendDiscoverMessage | normal_node/chat.py:259-275 | transmits one discover packet from this node |
| Leaf.LeafNode.SendAnnounceMessage | normal_node/chat.py:277-294 | transmits one announce packet for this node |
| Leaf.LeafNode.ProcessNetworkMessage | normal_node/chat.py:183-204 | the new state and result are those of the network step |
| Leaf.LeafNode.ProcessAckMessage | normal_node/chat.py:206-213 | the new state and result are those of the ack step |
| Leaf.LeafNode.ProcessDiscoverMessage | normal_node/chat.py:215-224 | the new state and result are those of the discover step |
| Leaf.LeafNode.ProcessAnnounceMessage | normal_node/chat.py:226-237 | the new state and result are those of the announce step |
| Leaf.LeafNode.Dispatch | normal_node/chat.py:136-148 | dispatches on the packet type as the dispatch step does |
| Leaf.LeafNode.HandleItem | normal_node/chat.py:116-178 | handles one received item as the item step does |
| Leaf.LeafNode.ListenForData | normal_node/chat.py:110-181 | the new state and records are the fold of the item step over the batch |
| Leaf.LeafNode.GetDiscoveredNodes | normal_node/chat.py:299-300 | the list holds exactly the known nodes, each once |
| Gateway.ShortLineIgnored | super_node/chat_2.py:117-118 | a line with fewer than three comma-separated fields changes nothing |
| Gateway.ReportLineDataField | super_node/chat_2.py:117-119 | the third field of a frame's report line is the frame's data |
| Gateway.DecodeTransportText | super_node/chat_2.py:120-122 | a packet's base64 text decodes to that packet |
| Gateway.ReportLineDecodes | super_node/chat_2.py:114-122 | the report line of a frame carrying a packet decodes to that packet |
| Gateway.UndecodableFrameHalts | super_node/chat_2.py:119-122 | a line whose third field does not decode ends the listener with its state unchanged |
| Gateway.HaltAbsorbs | super_node/chat_2.py:111-138 | once the listener has stopped, no later line has any effect |
| Gateway.DuplicateSkipped | super_node/chat_2.py:124-128 | a packet whose id was seen before changes nothing |
| Gateway.ForeignMessageDropped | super_node/chat_2.py:242-246 | a message neither for this node nor for a `+` destination changes nothing |
| Gateway.UndecryptableHalts | super_node/chat_2.py:247-249 | an accepted message that does not decrypt ends the listener with its state unchanged |
| Gateway.AcceptedMessageAcked | super_node/chat_2.py:247-256 | an accepted, decryptable message is acked once, and is published upstream exactly when its destination starts with `+` |
| Gateway.AckHandled | super_node/chat_2.py:156-159 | an ack marks its ledger entry acked |
| Gateway.DiscoverAnswered | super_node/chat_2.py:162-167 | a discover packet is answered with one announce for this node |
| Gateway.AnnounceRecorded | super_node/chat_2.py:169-175 | an announce adds the node to the known set |
| Gateway.SendMessageEffect | super_node/chat_2.py:82-103 | sending transmits one network packet whose content decrypts to the text, enters its id as pending, and leaves every other ledger entry as it was |
| Gateway.MqttPassThrough | super_node/chat_2.py:219-240 | an event line without the publish marker, or with fewer than five fields, changes nothing |
| Gateway.MqttForwardsPacket | super_node/chat_2.py:221-237 | a publish event's payload packet is put on the air unchanged |
| Gateway.GatewayNode.constructor | super_node/chat_2.py:14-27 | a gateway starts with empty stores and nothing transmitted or published, and its node id is `FIXED170` |
| Gateway.GatewayNode.Draw | super_node/chat_2.py:95 | each packet consumes the next random id and IV |
| Gateway.GatewayNode.SendPacket | super_node/chat_2.py:105-109 | transmits exactly the given packet |
| Gateway.GatewayNode.SendMessage | super_node/chat_2.py:82-103 | the new state is that of the send step |
| Gateway.GatewayNode.SendAck | super_node/chat_2.py:177-188 | transmits one ack packet for the message id |
| Gateway.GatewayNode.SendDiscoverMessage | super_node/chat_2.py:190-200 | transmits one discover packet from this node |
| Gateway.GatewayNode.SendAnnounceMessage | super_node/chat_2.py:202-213 | transmits one announce packet for this node |
| Gateway.GatewayNode.ProcessNetworkMessage | super_node/chat_2.py:242-256 | the new state is that of the network step, and the result says whether the listener survives |
| Gateway.GatewayNode.ProcessAckMessage | super_node/chat_2.py:156-159 | the new state is that of the ack step |
| Gateway.GatewayNode.ProcessDiscoverMessage | super_node/chat_2.py:162-167 | the new state is that of the discover step |
| Gateway.GatewayNode.ProcessAnnounceMessage | super_node/chat_2.py:169-175 | the new state is that of the announce step |
| Gateway.GatewayNode.Poll | super_node/chat_2.py:113-138 | one read of the transceiver behaves as the poll step |
| Gateway.GatewayNode.ListenForData | super_node/chat_2.py:111-138 | the new state is the fold of the poll step over the lines read, stopping at the first halt |
| Gateway.GatewayNode.HandleMqtt | super_node/chat_2.py:220-240 | one MQTT event behaves as the MQTT step |
| Gateway.GatewayNode.ListenForMqtt | super_node/chat_2.py:216-240 | the new state is the fold of the MQTT step over the events |
| Relay.SplitMessage | relay_server/relay.py:59-60 | no chunks exactly for the empty text; there are ceil(n/45) chunks; every chunk holds 1 to 45 characters, and all but the last hold exactly 45 |
| Relay.ConcatPrefix | relay_server/relay.py:59-60 | the first k chunks concatenate to the first k·45 characters of the text |
| Relay.SplitMessageConcat | relay_server/relay.py:59-60 | the chunks concatenate back to the text |
| Relay.ReplyPublicationCarries | relay_server/relay.py:92-108 | the reply for a chunk is a network packet from `Server` to the asker on `12458Test/sub`, whose content decrypts to the chunk |
| Relay.ReplyPublicationsCarry | relay_server/relay.py:91-108 | the i-th reply publication carries the i-th chunk under the i-th draw |
| Relay.QueryAnswered | relay_server/relay.py:83-108 | a `+Q` message publishes one reply per chunk of the assistant's answer to the stripped question, in order, and sends no SMS |
| Relay.OtherDestinationTexted | relay_server/relay.py:110-111 | a message to any other destination is sent as one SMS with the plaintext, and nothing is published |
| Relay.FailuresChangeNothing | relay_server/relay.py:66-113 | every failure outcome leaves the relay's state unchanged |
| Relay.NonNetworkIgnored | relay_server/relay.py:77 | a packet of any other type is ignored |
| Relay.UndecryptableCaught | relay_server/relay.py:79-80 | a network message that does not decrypt is a caught failure |
| Relay.RelayServer.SendSms | relay_server/relay.py:115-126 | records exactly one SMS request |
| Relay.RelayServer.PublishChunks | relay_server/relay.py:91-108 | appends exactly the reply publications of the chunks, in order, one draw each |
| Relay.RelayServer.OnMessage | relay_server/relay.py:66-113 | the new state and outcome are those of the message step |
| Scenarios.ReportedFrameReadBack | normal_node/rylr998.py:65-77 | the transceiver's report line for a packet's frame is read back as that frame |
| Scenarios.OnAirDecodes | normal_node/chat.py:119-126 | a frame carrying a packet decodes at the leaf to that packet |
| Scenarios.MessageDeliveredAndAcked | normal_node/chat.py:74-213 | a message between two leaves is delivered with its text and sender, is acked, and the ack flips the sender's ledger entry to `ACKED` |
| Scenarios.SmsRelayed | super_node/chat_2.py:242-256 | a leaf's message to a phone number is acked and published by the gateway, and the relay sends that text to that number |
| Scenarios.AnswerChunkDelivered | relay_server/relay.py:83-108 | each reply chunk is forwarded by the gateway and received by the asking leaf from `Server`, and the chunks reassemble the answer |

## Left out

- Serial port, MQTT and HTTP I/O, sleeps, and polling timeouts are left out. The transceiver's lines, the broker's events and the relay's payloads are parameters.
- The listener threads and their interleaving are left out: each loop is modelled on its own, over a given sequence of inputs.
- The `main` input loops of both node programs are left out, as are `initialize_lora` and the AT configuration commands (band, address, network id, RF parameters), `get_node_id`, and the gateway's MQTT connection setup: they are configuration and console I/O.
- `web_chat.py`, `sender.py`, `skylo.py` and `super_node/rylr998.py` are not part of this model.
- Base64, protobuf, UTF-8 and the AES block permutation are opaque, and their laws are assumed through `Codec.Lawful` and `Cipher.Inverts`.
- Twilio and Gemini are left out: the assistant is a function parameter, and an SMS is a recorded request whose delivery is not modelled.
- Randomness and timestamps are left out: each packet's id and IV come from indexed oracles, and one `now` is used for a whole batch.
- Text.IsSpace: only ASCII whitespace counts as space, both in the report-line parse and in the relay's strip of a question, whereas Python's `strip()` also removes other Unicode white space such as `\x1c`–`\x1f`.
- Text.ParseInt: it does not accept the underscores, surrounding white space or non-ASCII digits that Python's `int()` does.
- Rylr998.ReceiveData: the SNR field is kept as text, and the `ValueError` that `float()` raises on a malformed SNR is not modelled, because floating point is out of scope.
- Rylr998.ReceiveData: a non-numeric address, length or RSSI gives `NotANumber`; the exception it stands for propagates to the caller, and the model does not follow it further.
- Relay.OnMessageStep: a base64 failure of the payload is only the `Uncaught` outcome; what the MQTT client library then does is not modelled.
- Leaf.LeafNode.GetDiscoveredNodes: the order of the returned list is unspecified, as Python's set iteration order is.
- Acks, discovers and announces are not authenticated by either node program, and the model adds no check.

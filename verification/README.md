# Reticulum-rs: channel, LXMF and transport bookkeeping in Dafny

This project models five parts of Reticulum-rs and proves what they are for. Every main result is
stated for all inputs, all runs or all reachable states.

* **The reliable channel and the byte stream on top of it** (`src/channel.rs`,
  `src/buffer_stream.rs`). Modules `Octets`, `Envelope`, `Window`, `Outbound`, `Inbound`,
  `Delivery`, `Wraparound`, `Stream`, `StreamRun`. A sender, a receiver and a network that drops,
  duplicates and reorders transmissions. Sequence numbers are real 16-bit values next to an
  unbounded index. The results run from the window control up to "the bytes read are a prefix of
  the bytes written".
* **The LXMF wire format** (`lxmf/src/fields.rs`, `lxmf/src/message.rs`, `lxmf/src/stamper.rs`).
  Modules `Msgpack`, `Utf8Laws`, `FloatLaws`, `Fields`, `Crypto`, `Stamper`, `Base64`, `Message`,
  `Upload`, `LXMessage`. A MessagePack codec down to the bytes, the message container, ids and
  signatures over the re-packed payload, stamps, paper URIs, and what a message uploads to a
  propagation node.
* **Router: tickets, stamps and the propagation store** (`lxmf/src/router.rs`). Modules `Router`,
  `Tickets`, `Stamps`, `Propagation`, `PropagationSession`, `PropagatedMessage`. Tickets and stamps
  across two routers through the real codec; a client's list, fetch and acknowledge session with a
  node that serves others meanwhile; a message from author to reader through a node.
* **Transport bookkeeping** (`src/transport.rs`, `src/iface.rs`). Modules `InboundQueues`,
  `Receipts`, `PersistedPaths`, `PathRestore`, `PathRuns`.
* **Streaming filters** (`lxst/src/filters.rs`). Modules `Filters`, `FilterObjects`, `FilterLaws`.

## How the model is built

State is a datatype, each operation a function on it, and a run is a fold of a total step function
over an arbitrary list of events; an event that cannot happen leaves the state alone. Where the
source updates an object or runs a loop, a class or a method with loop invariants is proved equal
to the function. Cryptography, compression, float arithmetic and the clock are function values or
parameters of which only the stated laws are used (`Crypto.SignaturesVerify`,
`Crypto.DecryptsOwn`, `Stream.Lossless`, `FilterLaws.Exact`, `FilterLaws.Complementary`). Floats in messages are bit patterns. Each handler is one
atomic step that reads the clock once. Where the source's integers wrap, the model wraps as a
release build does (`u16` sequence numbers and round counters, the scaled transfer limits).

## Where a promise fails, and when it holds

* **More than 65535 channel messages.** A packet repeated after more than 48 later ones passes the
  duplicate filter, waits in the reorder buffer and is delivered a second time one lap later
  (`Wraparound.DeliversTwiceAfterALap`). `Delivery.FilterIsExact` says for every pair of indices
  exactly when the filter decides right. `Delivery.InOrderExactlyOnce` needs no condition below
  65536 messages. `Delivery.ManyLaps` covers any number of laps in which the filter decides right
  on every arrival; arrivals at most 48 back in their lap are one such case (`Delivery.TimelyLaps`).
* **`Channel::mdu` on tiny links.** `send` and `mdu` agree exactly when the link MDU is at least 6
  (`Envelope.MduIsWhatSendAccepts`).
* **Dedicated stream channels.** The primary type ignores the message type, so a dedicated reader
  takes a message of any type for its stream exactly when the payload unpacks to a frame of its
  stream id (`StreamRun.DedicatedTakesIff`). If no other message unpacks to such a frame with data
  or an end mark, the bytes read are a prefix of the bytes written
  (`StreamRun.BytesReadArePrefixOfBytesWritten`). Any one that does breaks this on some run
  (`StreamRun.ForeignFrameMisleads`).
* **Packing a received message again** gives the bytes its id was computed from exactly when its
  field map repeats no id (`Message.RepackReproducesHashedBytes`).
* **Uploading to a propagation node.** A propagation stamp can be searched for only once a message is
  packed for upload, and the upload is not made again. So after any calls on a message and any edits
  of its other fields, what it uploads is the transport form with no stamp after it
  (`Upload.UploadCarriesNoStamp`). The node takes the last 32 bytes for the stamp. It stores the
  message 32 bytes short, under the hash of that, exactly when those bytes are a stamp at its cost
  for the bytes before them and it can store these; otherwise it stores nothing
  (`PropagatedMessage.UnstampedUploadIsCut`). So the upload never makes the message readable whole
  (`PropagatedMessage.LibraryUploadIsNotServed`). Uploaded by another client with a stamp after it,
  it reaches its reader (`PropagatedMessage.MessageThroughNode`).
* **Stamping at the announced cost.** `send` takes the cost its destination announced, but a new
  message puts stamping off and nothing stamps it later. An enforcing destination rejects it
  (`Stamps.NewMessageIsRejected`). `Stamps.AnnouncedCostIsMetIff` says exactly when it does not: the
  stamp is not put off and the search succeeds.
* **Entries stored without a stamp.** A fetch always drops 32 bytes, so the served bytes hash to
  the id exactly when the entry was stored with its stamp
  (`Propagation.ServedHashesToIdIffStamped`).
* **Ingesting again with leave to repeat.** A message seen and removed from the store enters it
  again in a step exactly when the step ingests its bytes with `allow_duplicate`, the node hosts,
  the write succeeds and the message is not for the node itself (`PropagationSession.ReentersIff`,
  `PropagationSession.RepeatedComesBack`). The new file has no stamp
  (`PropagationSession.RepeatIsBare`).
* **Reloading persisted paths.** A reload forgets the paths already read. Followed by a save, it
  keeps a path of an absent interface exactly when the reload gets as far as scanning the table
  (`PathRuns.ReloadThenSaveKeepsIffScanned`); with no live interface it does not, and the path is
  lost (`PathRuns.ReloadWithoutInterfacesLosesPaths`). `PathRuns.StepKeepsPendingIff` says for every
  step exactly when a pending path stays pending and saved.

## Where code and comments disagree

The model follows the code.

* `lxmf/src/fields.rs:478-479` calls field ids one-byte positive fixints; ids from 0x80 take two bytes.
* `lxmf/src/fields.rs:363-364` says arrays have the length guard that maps have; they have none.
* `src/transport.rs:5155-5157` says culling drops in-flight receipts; when none is left it drops
  concluded ones still in grace.
* `src/transport.rs:2466-2469` says paths of absent interfaces stay pending; see the reload above.
* `lxmf/src/message.rs:434` says a deferred stamp is generated when the message is sent; it is not.
* `lxmf/src/message.rs:764-765` says an already generated propagation stamp is appended; none can
  have been generated by then.
* `lxmf/src/message.rs:1066-1068` asks for a message packed for paper; `as_uri` also turns one that
  `pack_paper` rejected as too large into a URI.

## Model

| member | source | states |
|---|---|---|
| `Envelope.EnvelopeRoundTrip` | src/channel.rs:143-169 | The receiver reads back type, sequence number and payload of every envelope. |
| `Envelope.EnvelopeLayout` | src/channel.rs:143-169 | Where type, sequence number and length stand in the six bytes, most significant byte first. |
| `Envelope.MaxLinkPlaintextIsExact` | src/channel.rs:54-58 | A plaintext is within the limit iff its padded token fits a packet. |
| `Envelope.MduIsWhatSendAccepts` | src/channel.rs:933-938 | For link MDU at least 6, and only then, `send` accepts a payload iff it is at most `mdu`. |
| `Window.ChannelParams.constructor` | src/channel.rs:229-254 | The initial parameters of a slow and of an ordinary channel. |
| `Window.ChannelParams.AdjustParams` | src/channel.rs:256-285 | The new parameters after a proof, for every round trip time. |
| `Window.ChannelParams.ShrinkOnTimeout` | src/channel.rs:573-584 | The new parameters after a timeout. |
| `Window.StepStaysBounded` | src/channel.rs:256-285 | A proof or timeout keeps the window in its tier and between its initial value and the maximum. |
| `Window.RunStaysBounded` | src/channel.rs:229-285 | So does every run of proofs and timeouts; the window never exceeds 48. |
| `Window.WindowMinNeverDecreases` | src/channel.rs:256-285 | Over any continuation of any run the window minimum does not fall. |
| `Window.TimeoutsShrink` | src/channel.rs:573-584 | After any number of timeouts in a row, from any parameters: the window has lost one for each until its minimum, the maximum as long as it leaves the flexibility, and nothing else changed. |
| `Window.SlowProofs` | src/channel.rs:256-285 | After any number of slow proofs in a row the window has gained one for each up to its maximum, and the counts of better ones start again. |
| `Window.UnmeasuredProofs` | src/channel.rs:256-285 | Proofs without a measured time only open the window. |
| `Window.FastProofs` | src/channel.rs:256-285 | After n fast proofs in a row: maximum and minimum of the fast tier from the tenth on, and the window step by step behind them. |
| `Window.MediumProofs` | src/channel.rs:256-285 | The same for the medium tier. |
| `Window.TierJumpLeavesWindowBelowMinimum` | src/channel.rs:274-283 | A run after which the window lies below the window minimum. |
| `Outbound.Outbound.SendMessage` | src/channel.rs:638-710 | A refused send changes nothing; an accepted one stores the packet with one try and takes the next sequence number. |
| `Outbound.Outbound.Prove` | src/channel.rs:516-547 | A proof moves an outstanding hash to delivered and grows the window; an unknown one does nothing. |
| `Outbound.Outbound.TimeOut` | src/channel.rs:549-602 | A timeout tears down at the fifth try, otherwise counts a try, shrinks the window and sends the same packet. |
| `Outbound.SendKeepsInv` | src/channel.rs:638-710 | A send keeps the conservation, authenticity and retry invariants below. |
| `Outbound.TimeoutKeepsInv` | src/channel.rs:549-602 | So does a timeout. |
| `Outbound.RunKeepsInv` | src/channel.rs:501-602 | On every run each accepted hash is in exactly one of outstanding and delivered, at most 48 are outstanding, the next sequence number is the accepted count mod 65536, everything on the wire is an accepted packet, and none is sent more than 5 times. |
| `Outbound.DeliveredIsFinal` | src/channel.rs:718-736 | Once a message is reported delivered it stays so on every continuation. |
| `Outbound.AcceptedIffWindowOpen` | src/channel.rs:501-513 | `send` accepts a message iff nothing about the link stands in the way, `mdu` admits it and fewer are outstanding than the window; a full window is a link not ready. |
| `Outbound.AcceptingFitsWindow` | src/channel.rs:638-690 | In any state, an accepted send leaves no more outstanding than the window in force. |
| `Outbound.EveryRunIsPaced` | src/channel.rs:501-602 | On every run no more is accepted than the initial window and two messages for each one proven. |
| `Outbound.WindowFollowsWeather` | src/channel.rs:516-602 | On every run the window parameters are what the proofs of outstanding packets and the timeouts that led to a retry make of them, and nothing else moves them. |
| `Outbound.GivesUpAfterFive` | src/channel.rs:549-602 | After any run with the link up, a timeout tears it down iff the packet is unproven and was sent five times, sends it once more iff it was sent less often, and does nothing for any other. |
| `Outbound.StatusIs` | src/channel.rs:718-736 | After any such run the status is unknown iff never accepted, delivered iff proven, else how often the packet was sent. |
| `Inbound.Inbound.ReceiveRaw` | src/channel.rs:368-444 | Filter, decode, hold and the drain loop: the new reorder buffer and everything handed out. |
| `Delivery.FilterIsExact` | src/channel.rs:387-397 | For every packet index and every next index, exactly when the 16-bit filter tells old from fresh. |
| `Delivery.DrainInOrder` | src/channel.rs:416-443 | The drain hands out the messages from the next index on, in order, without gap, never past the last accepted one. |
| `Delivery.InsertKeepsInOrder` | src/channel.rs:397-443 | Holding one more decoded packet and draining keeps delivery in order and exactly once. |
| `Delivery.ReceiveAccepted` | src/channel.rs:368-444 | What an arrival of the packet of any accepted message does to the receiver. |
| `Delivery.FirstLapStep` | src/channel.rs:368-444 | Every step of sender, network and receiver keeps in-order delivery while fewer than 65536 messages are accepted. |
| `Delivery.FirstLapRun` | src/channel.rs:368-444 | Hence every run does. |
| `Delivery.InOrderExactlyOnce` | src/channel.rs:368-444 | For any network, below 65536 messages: what subscribers get is the first k accepted messages in order, each once, k being the first index that never arrived while registered or unpackable. |
| `Delivery.TimelyIsSorted` | src/channel.rs:387-397 | A packet less than a lap minus 48 ahead, or at most 48 back in the same lap, is one the filter sorts correctly. |
| `Delivery.LapsRunKeepsInv` | src/channel.rs:368-444 | Over any number of laps of correctly sorted arrivals delivery stays in order, and each held key stands for one accepted index less than a lap ahead. |
| `Delivery.ManyLaps` | src/channel.rs:387-443 | If the filter sorts every arrival correctly, then over any number of laps delivery is the first accepted messages in order, each once, the next such arrival is accepted iff it is fresh, and a held key it meets holds the same message. |
| `Delivery.TimelyLaps` | src/channel.rs:387-443 | Runs of timely arrivals meet that condition. |
| `Delivery.FreshPacketIsTaken` | src/channel.rs:397-443 | For every fresh packet the filter sorts correctly: nothing changes if nobody can take it; else it is handed out at once if waited for, otherwise held, as registered if its type is, as unpacked if not. |
| `Delivery.OldPacketIsHeldIff` | src/channel.rs:387-443 | For every index already delivered and every state in step: a repeated packet changes nothing if the filter sorts it correctly; otherwise it is delivered again at once or held under its old number. |
| `Wraparound.LateDuplicateIsHeld` | src/channel.rs:387-397 | A packet repeated after more than 48 others is put on hold under its old number. |
| `Wraparound.DeliversTwiceAfterALap` | src/channel.rs:387-443 | A run with 65536 accepted messages and 65537 deliveries, for every position of the duplicate. |
| `Stream.FrameRoundTrip` | src/buffer_stream.rs:53-90 | A packed frame is read back with its id, end mark and plain data, compressed or not. |
| `Stream.FrameLayout` | src/buffer_stream.rs:53-90 | End mark, compression mark and stream id in the bits of the first two bytes, then the data. |
| `Stream.WriteFrame` | src/buffer_stream.rs:337-394 | An error for a zero budget; else the compression loop returns the first fitting compressed prefix, or a plain one. |
| `Stream.CutIsLongest` | src/buffer_stream.rs:337-394 | A frame is compressed iff more than 32 of at most 16384 bytes are at hand and the whole, half or third of them compresses into the frame and below its own size, the longest such; else it is plain and full. |
| `Stream.FrameCarriesPrefix` | src/buffer_stream.rs:337-394 | Every data frame stands for a non-empty prefix of the remaining bytes, fits the frame budget and is read back as exactly that prefix. |
| `Stream.FrameFitsChannel` | src/buffer_stream.rs:275-324 | A frame cut for the channel's `mdu` passes the channel's size check. |
| `Stream.PumpChunk` | src/buffer_stream.rs:282-324 | The writer loop, against any answers: the accepted frames read back as exactly the bytes passed, and there are no more of them than bytes. |
| `Stream.SliceFrame` | src/buffer_stream.rs:153-189 | Slices of at most 4096 bytes that concatenate to the frame's data. |
| `StreamRun.StepKeepsInv` | src/buffer_stream.rs:255-335 | Every step of writer, channel, network, reader and other traffic keeps: accepted frames are the bytes sent, the reader has read the frames before its place. |
| `StreamRun.RunKeepsInv` | src/buffer_stream.rs:153-335 | Hence every run does. |
| `StreamRun.BytesReadArePrefixOfBytesWritten` | src/buffer_stream.rs:153-324 | For any network and interleaving below 65536 channel messages, with no other sender of frames the reader takes for its stream: bytes read are a prefix of bytes written, all accepted bytes once caught up, and all bytes written if the end mark was seen. |
| `StreamRun.ReaderCatchesUp` | src/buffer_stream.rs:153-189 | From any place, with nothing more delivered, the reader ends within one step for each message and byte ahead of it, having emitted all frames of its id up to the first end mark, closed iff there was one. |
| `StreamRun.EverythingDeliveredIsRead` | src/buffer_stream.rs:153-189 | Hence after any run, given time to read, the bytes read are all the stream's bytes the channel delivered. |
| `StreamRun.AttachedIsSound` | src/buffer_stream.rs:437-463 | A reader attached to a shared channel meets the hypotheses of that theorem. |
| `StreamRun.DedicatedIsSound` | src/buffer_stream.rs:420-427 | So does a reader on a dedicated channel, whatever else the channel carries. |
| `StreamRun.OtherStreamsAreNotOurs` | src/buffer_stream.rs:169-171 | Frames of any other stream id, of either kind, are nothing to a reader, so streams can share a channel. |
| `StreamRun.DedicatedTakesIff` | src/buffer_stream.rs:92-96 | A dedicated reader takes a delivered message of any type for its stream iff its payload unpacks to a frame with its id. |
| `StreamRun.ForeignFrameMisleads` | src/buffer_stream.rs:92-96 | For every such payload with data or an end mark, of any type, a run with that one message in which the reader gives out bytes nobody wrote or an end nobody marked. |
| `Msgpack.IntHeadRoundTrip` | lxmf/src/fields.rs:234-241 | Every 64-bit integer is read back from its encoding. |
| `Msgpack.IntHeadIsShortest` | lxmf/src/fields.rs:234-241 | No head read as an integer is shorter than the one written for it, and what is not negative is written as unsigned. |
| `Msgpack.HeadIsShortest` | lxmf/src/fields.rs:226-268 | The same for strings, binaries, arrays and maps of every length. |
| `Msgpack.PackIsShortest` | lxmf/src/fields.rs:226-378 | Whatever bytes a value was read from, its encoding is no longer, but for four bytes for each float. |
| `Msgpack.NarrowFloatGrows` | lxmf/src/fields.rs:306-312 | A 32-bit float for which those four bytes are needed. |
| `Msgpack.FirstByteIs` | lxmf/src/fields.rs:226-268 | The first byte of every encoding, by the table of formats of the MessagePack specification. |
| `FloatLaws.WidenKeepsValue` | lxmf/src/fields.rs:306-312 | A received 32-bit float keeps its sign and value, or stays infinite, or stays not a number. |
| `Msgpack.RoundTrip` | lxmf/src/fields.rs:226-378 | For every well-formed value and every suffix, unpacking the packed bytes gives the value and leaves exactly the suffix. |
| `Msgpack.PrefixFree` | lxmf/src/fields.rs:226-268 | The encoding is injective and no encoding is a prefix of another. |
| `Msgpack.Unpack` | lxmf/src/fields.rs:276-378 | Every successful unpack consumes at least one byte, so the recursion ends. |
| `Msgpack.PackEntries` | lxmf/src/fields.rs:260-266 | A map's entries take at least two bytes each, so the length guard rejects no genuine encoding. |
| `Msgpack.UnpackedIsWellFormed` | lxmf/src/fields.rs:276-378 | Whatever unpacks, minimal or not, lies in the domain of the round trip. |
| `Utf8Laws.Utf8IsExact` | lxmf/src/fields.rs:326-336 | A string is accepted iff it is the UTF-8 encoding of a sequence of Unicode scalar values. |
| `Fields.Fields.Insert` | lxmf/src/fields.rs:435-441 | Replaces in place or appends. |
| `Fields.Fields.Remove` | lxmf/src/fields.rs:449-452 | Returns the value of the first entry with the id and removes that entry. |
| `Fields.Fields.Position` | lxmf/src/fields.rs:444-457 | The linear search finds the first entry with the id. |
| `Fields.InsertedIsUpdate` | lxmf/src/fields.rs:432-441 | Inserting is dictionary update, keeps ids unique and keeps the position of an id already there. |
| `Fields.RemovedIsDeletion` | lxmf/src/fields.rs:449-452 | Removing is dictionary deletion and keeps ids unique. |
| `Fields.PackInto` | lxmf/src/fields.rs:475-483 | The packing loop appends the map head and every entry in order. |
| `Fields.PackFieldsIsPackMap` | lxmf/src/fields.rs:475-483 | The field list and the generic map it is read as have identical bytes. |
| `Fields.ReadFields` | lxmf/src/fields.rs:488-503 | The reading loop inserts entry by entry and fails on the first key that is not a byte. |
| `Fields.FieldsRoundTrip` | lxmf/src/fields.rs:475-503 | A list with unique ids is read back unchanged. |
| `Fields.FromEntriesIsDistinct` | lxmf/src/fields.rs:488-503 | Reading succeeds iff all keys are one-byte integers, and then ids are unique. |
| `Stamper.LeadingZeroBits` | lxmf/src/stamper.rs:72-83 | The loop with early exit counts the leading zero bits. |
| `Stamper.ZeroBitsIsThreshold` | lxmf/src/stamper.rs:72-83 | For every byte string and every c up to its bit length: at least c zero bits iff the big-endian value is below 2^(8n-c). |
| `Stamper.ExpandWorkblock` | lxmf/src/stamper.rs:46-68 | The expansion loop concatenates one 256-byte block per round. |
| `Stamper.StampValidIsThreshold` | lxmf/src/stamper.rs:94-111 | A stamp is valid iff the cost is at most 256 and the digest is below 2^(256-cost). |
| `Stamper.StampValueIsLargestCost` | lxmf/src/stamper.rs:86-111 | The value of a stamp is the largest cost at which it is valid. |
| `Stamper.ValidityIsMonotone` | lxmf/src/stamper.rs:99-111 | Valid at a cost implies valid at every lower cost. |
| `Stamper.GenerateAgainst` | lxmf/src/stamper.rs:140-156 | The search returns the first valid draw and its value. |
| `Stamper.FirstValidIsValid` | lxmf/src/stamper.rs:140-156 | What the search returns is valid and worth at least the cost; it returns nothing only if no draw is valid. |
| `Stamper.PnStampRoundTrip` | lxmf/src/stamper.rs:181-207 | A message with a stamp appended validates iff it is long enough and the stamp is worth the cost, and is taken apart again. |
| `Stamper.ValidatedIsASplit` | lxmf/src/stamper.rs:181-207 | Nothing else validates. |
| `Stamper.StampTransientData` | lxmf/src/stamper.rs:140-207 | A generated stamp passes validation at its cost and at every lower one. |
| `Stamps.StampSentIs` | lxmf/src/message.rs:608-672 | Which stamp a packed message carries: none if put off, a ticket's before any other, none without a cost, one it has before a search. |
| `Stamps.KeptStampKeepsRecord` | lxmf/src/message.rs:645-698 | A message not stamped anew keeps its stamp and what is recorded of it. |
| `Stamps.SearchedStampIsWorth` | lxmf/src/message.rs:884-925 | A message with a cost, packed and unpacked, passes at every cost up to its own iff stamping was not put off and some draw is work on its id, and then its worth is at least its cost. |
| `Stamps.AnnouncedCostIsMetIff` | lxmf/src/router.rs:1375-1420 | Sent without a ticket at the cost the receiver announced, a message is rejected by the enforcing receiver iff stamping was put off or no draw succeeded. |
| `Stamps.SenderAndReceiverAgree` | lxmf/src/message.rs:608-640 | The worth a sender records of its stamp, by ticket or by search, is the worth a receiver finds. |
| `Stamps.NewMessageIsRejected` | lxmf/src/message.rs:529 | A new message puts it off and is rejected. |
| `Stamps.OutcomeIff` | lxmf/src/router.rs:1968-2033 | A message for this router is rejected iff an enforced stamp is neither made by an unexpired ticket issued to its source nor work at the cost; else ignored iff its source is; else a duplicate iff its id was delivered; else received. |
| `Base64.Encode` | lxmf/src/message.rs:291-309 | The chunk loop computes the encoding. |
| `Base64.Decode` | lxmf/src/message.rs:313-345 | The cleaning and chunk loops compute the decoding, or fail on a foreign character. |
| `Base64.RoundTrip` | lxmf/src/message.rs:291-345 | Decoding undoes encoding for every byte string. |
| `Base64.SlashesAreHarmless` | lxmf/src/message.rs:1225-1232 | Any URI that is an encoding once slashes are stripped, in any capitalisation of the scheme, stands for the encoded bytes. |
| `Base64.UriRoundTrip` | lxmf/src/message.rs:1069-1084 | Every generated URI stands for the bytes it was made from. |
| `Base64.PaperMduIsExact` | lxmf/src/message.rs:167-169 | The paper limit admits a message iff its URI fits a QR code. |
| `Message.PackPayloadIsPack` | lxmf/src/message.rs:586-605 | The hand-written payload is the generic encoding of its four or five values. |
| `Message.PackCoreSets` | lxmf/src/message.rs:645-698 | The id hashes destination, source and the stampless payload; the signature covers that and the id; nothing the author wrote changes. |
| `Message.WireRoundTrip` | lxmf/src/message.rs:1099-1214 | Reading a packed message recovers every part, recomputes the id from the same bytes and validates iff the known source key verifies. |
| `Message.MessageRoundTrip` | lxmf/src/message.rs:645-698 | Unpacking the bytes of `pack_core` recovers title, content, fields, timestamp, stamp and id, and the signature verifies. |
| `Message.IdIgnoresStamp` | lxmf/src/message.rs:645-698 | Id and signature depend on neither the stamp nor what decides about it. |
| `Message.ReceivedIsStable` | lxmf/src/message.rs:1156-1214 | For any accepted bytes, the stampless minimal form carries the same message, id and signature verdict. |
| `Message.RepackReproducesHashedBytes` | lxmf/src/message.rs:1151-1169 | Packing a received message again gives the hashed bytes iff the received map repeats no id. |
| `Message.ValidatedMeansVerified` | lxmf/src/message.rs:1165-1211 | A received message is marked validated iff the key known for its source verifies its signature over the text its id was computed from. |
| `Message.SignedTextFixesMessage` | lxmf/src/message.rs:1165-1203 | A signed text determines addresses, title, content, fields, time and id of any message that verifies against it. |
| `LXMessage.LXMessage.GetStamp` | lxmf/src/message.rs:608-640 | Ticket first, then no cost, then an existing stamp, then the search. |
| `LXMessage.LXMessage.PackCore` | lxmf/src/message.rs:645-698 | A packed message is refused unchanged; otherwise the whole new state. |
| `LXMessage.LXMessage.PackPaper` | lxmf/src/message.rs:851-879 | The encrypted paper form, with the error for a packed message, an unknown destination, a failing encryption or a size over the limit. |
| `LXMessage.LXMessage.Pack` | lxmf/src/message.rs:704-759 | Packing with the choice of delivery method: long content goes over a link, other methods are refused after packing. |
| `LXMessage.LXMessage.PackPropagation` | lxmf/src/message.rs:766-809 | Packing for upload: the state after success and after each error. |
| `LXMessage.LXMessage.GetPropagationStamp` | lxmf/src/message.rs:813-846 | A stamp there is returned; else the message is packed if need be and a stamp is searched for its transient id; the state and each error. |
| `LXMessage.LXMessage.ValidateStamp` | lxmf/src/message.rs:884-925 | The ticket loop and the stamp check: accepted iff some ticket matches or the stamp is valid, and the value recorded. |
| `Upload.StepKeepsInv` | lxmf/src/message.rs:645-846 | Every call and every edit of a message keeps: before packing there is no transient id, stamp or upload, and an upload is the transport form alone. |
| `Upload.UploadCarriesNoStamp` | lxmf/src/message.rs:764-846 | Hence after any calls and edits an upload is the encrypted form of the packed message with no stamp after it. |
| `Upload.StampIsFoundIff` | lxmf/src/message.rs:829-846 | A propagation stamp is found iff some draw is work on the transient id, and nothing else of the message changes. |
| `Upload.FoundStampValidates` | lxmf/src/message.rs:829-846 | A propagation stamp that was found validates after the transport form at its cost and every lower one. |
| `LXMessage.PaperRoundTrip` | lxmf/src/message.rs:1220-1249 | A paper message that could be encrypted, read from its URI by its destination, is the packed message; packing accepts it iff it could be encrypted and the URI fits a QR code. |
| `LXMessage.PaperFailsIff` | lxmf/src/message.rs:851-879 | Exactly when packing for paper fails, and how. |
| `Router.Router.GenerateTicket` | lxmf/src/router.rs:1220-1267 | Recent delivery gives none, else the first ticket with validity left, else a new one on record. |
| `Router.Router.InboundTickets` | lxmf/src/router.rs:1313-1331 | The unexpired tickets issued to a destination, in order. |
| `Router.Router.Prepare` | lxmf/src/router.rs:1375-1411 | Announced cost, outbound ticket and included ticket as `send` sets them. |
| `Router.Router.Send` | lxmf/src/router.rs:1354-1427 | Refused without a node; else the message as packed for its method, how packing ends, and the ticket records after success or failure. |
| `Router.SendIsCalls` | lxmf/src/router.rs:1375-1420 | Every `send` is a sequence of edits and calls on the message, so its upload carries no stamp either. |
| `Router.SentOutgoingIsSent` | lxmf/src/router.rs:1413-1420 | For either method `send` packs the same message. |
| `Router.MethodChosen` | lxmf/src/message.rs:704-759 | A message goes out by packet iff that was asked for and all but its destination fits one; over a link if that, nothing, or too long a packet was asked for; anything else fails. |
| `Router.SendFailsIff` | lxmf/src/router.rs:1413-1420 | Exactly when and how a send fails for a packed message, one for a propagation node, and any other. |
| `Router.Router.Deliver` | lxmf/src/router.rs:1900-2034 | Outcome and state after delivery: tickets remembered, stamp enforced, source ignored, duplicate dropped. |
| `Router.GeneratedIsIssued` | lxmf/src/router.rs:1220-1267 | Every ticket handed out is on record for its destination, and records only grow. |
| `Router.TicketHandedOutIs` | lxmf/src/router.rs:1220-1267 | No ticket iff one went out within the interval; else the first on record with enough validity left; else a new one at the end of the record. |
| `Router.TicketsArePaced` | lxmf/src/router.rs:1401-1426 | After a send that carries a ticket, none is handed out for the interval. |
| `Stamps.TicketUsedIff` | lxmf/src/router.rs:1386-1397 | A message goes out under the ticket held for its destination iff that has not expired. |
| `Stamps.TicketIsReadIff` | lxmf/src/router.rs:1950-1966 | A ticket put into a message is read from it iff it has not expired, as it was put in. |
| `Router.NoIdReceivedTwice` | lxmf/src/router.rs:2003-2033 | Over any arrivals that may not repeat, no message id is received twice. |
| `Tickets.SentIsHonest` | lxmf/src/router.rs:1399-1420 | A message the issuer packs carries a ticket only if that ticket is on record for its destination. |
| `Tickets.DeliveryRemembers` | lxmf/src/router.rs:1950-1966 | Exactly when a delivery changes the tickets held, and to what. |
| `Tickets.StepKeepsInv` | lxmf/src/router.rs:1220-1331 | Every step of two routers, sends of packed messages and failing sends included, and a network that cannot forge the issuer's signature keeps: the ticket held is one on record. |
| `Tickets.RunKeepsInv` | lxmf/src/router.rs:1220-1331 | Hence every run does. |
| `Tickets.IssuedTicketIsHeld` | lxmf/src/router.rs:1950-1966 | A ticket put into a message is held by its destination once the message arrives unexpired and verifies. |
| `Tickets.TicketsWorkEndToEnd` | lxmf/src/router.rs:1968-1992 | After any run, any unpacked message sent under a ticket unexpired at both ends passes the issuer's stamp check with the ticket's worth, at any required cost. |
| `Propagation.TransferKeepsSound` | lxmf/src/router.rs:2225-2264 | After any transfer, every readable file without its stamp hashes to its id and starts with its destination. |
| `Propagation.NewMessageIsStoredIff` | lxmf/src/router.rs:2039-2160 | A message not seen before enters the store iff it is not for the node itself, the node hosts and the write succeeds, with its stamp after it; it counts as seen either way. |
| `Propagation.AcknowledgedIsExact` | lxmf/src/router.rs:717-737 | An acknowledgement removes exactly the client's own ids among those named. |
| `Propagation.ServedFits` | lxmf/src/router.rs:750-772 | Served ids are wanted and readable, and their budget sum stays within the limit. |
| `Propagation.ServedIsGreedy` | lxmf/src/router.rs:753-772 | One more wanted id is served iff it can be read and still fits after everything served before it. |
| `Propagation.SufficientBudgetServesAll` | lxmf/src/router.rs:753-772 | If the budget covers everything wanted that can be read, all of it is served. |
| `Propagation.ResponseFitsLimits` | lxmf/src/router.rs:742-773 | Any packed response that serves a message is at most the smaller of the two limits. |
| `Propagation.LimitIsBothLimits` | lxmf/src/router.rs:742-749 | That limit is a thousand times the smaller of both configured limits where nothing wraps, and at most that where it does; without a requested limit it is the one for deliveries. |
| `Propagation.ServedHashesToIdIffStamped` | lxmf/src/router.rs:760-766 | Served bytes hash to the id iff the entry was stored with its stamp. |
| `PropagationSession.PropagationNode.HandleTransfer` | lxmf/src/router.rs:2225-2264 | The transfer loop: the new store and the number of validated messages. |
| `PropagationSession.PropagationNode.MakeListing` | lxmf/src/router.rs:701-715 | The listing holds exactly the client's ids, each once, smallest first. |
| `PropagationSession.PropagationNode.HandleGet` | lxmf/src/router.rs:681-774 | Response and new store for every request, malformed ones included. |
| `PropagationSession.Serve` | lxmf/src/router.rs:750-773 | The loop with the running total serves what fits, in the order wanted. |
| `PropagationSession.Choose` | lxmf/src/router.rs:1090-1104 | The client's wants and haves from a listing. |
| `PropagationSession.NamedAndWanted` | lxmf/src/router.rs:1090-1104 | The client names what is listed and held iff it does not retain, and wants what is listed and not held, up to its bound. |
| `PropagationSession.RequestsAreUnderstood` | lxmf/src/router.rs:681-699 | List, fetch and acknowledge requests, packed by the client, are parsed as meant. |
| `Propagation.OtherRequestsAreInvalid` | lxmf/src/router.rs:681-699 | Anything but an array of two or three parts whose first two are hashes, and anything from a client without identity, is answered with its error and changes nothing. |
| `Propagation.HashesAre` | lxmf/src/router.rs:2640-2656 | Hashes are nil or a list of strings of 32 bytes, read in order. |
| `PropagationSession.AckIsConfirmed` | lxmf/src/router.rs:717-740 | An acknowledgement is answered with true and removes what it names of the client. |
| `PropagationSession.RunKeepsSound` | lxmf/src/router.rs:2039-2185 | On every run of transfers, ingestions with or without leave to repeat, requests, expiry and file loss each readable file stays the file of its id. |
| `PropagationSession.ExpiredIsExact` | lxmf/src/router.rs:2347-2371 | Expiry removes exactly the entries received before the cutoff, with their files; every other stays readable as it was. |
| `PropagationSession.ForeignRunIsUntouched` | lxmf/src/router.rs:681-774 | Over any run of what others do, a client owns, of the ids seen so far, exactly those it owned that have not expired, unless one of them is repeated. |
| `PropagationSession.RunKeepsFile` | lxmf/src/router.rs:2039-2185 | Nor does it change what a client reads for an id, unless the file is lost or expires or the id is repeated. |
| `PropagationSession.ReceiptIsServed` | lxmf/src/router.rs:1147-1168 | The client acknowledges the hashes of what the node served, which for messages stored with a stamp are their ids, and what it had. |
| `PropagationSession.FetchIsRead` | lxmf/src/router.rs:1118-1168 | The client reads a packed fetch response as exactly the served messages, and the hash of each one stored with a stamp is its id. |
| `PropagationSession.SessionRemovesExactly` | lxmf/src/router.rs:1090-1193 | Over a whole session in which any of the four messages may be lost, with others and expiry active in between, a client's message leaves the node iff it expired, was named as held in a fetch that arrived, or is the hash of a served message named in an acknowledgement that arrived; all others stay. |
| `PropagationSession.StampedAreAckedAsServed` | lxmf/src/router.rs:1147-1168 | In such a session, if the listed messages are stored with their stamps, those hashes are the ids served. |
| `PropagationSession.HeldLeavesIffNotRetained` | lxmf/src/router.rs:1090-1193 | A held message leaves the node in such a session iff the client does not retain messages and the request naming it arrives. |
| `PropagationSession.ReentersIff` | lxmf/src/router.rs:2052-2071 | A message seen and removed re-enters the store in a step iff the step ingests its bytes with leave to repeat and the node stores them. |
| `PropagationSession.GoneStaysGone` | lxmf/src/router.rs:2052-2071 | Hence on every run without such a step it never does. |
| `PropagationSession.RepeatedComesBack` | lxmf/src/router.rs:2052-2071 | An acknowledged message ingested again with leave to repeat is back in the store. |
| `PropagationSession.RepeatIsBare` | lxmf/src/router.rs:2123-2160 | Such an entry has no stamp, and a fetch of it lacks its last 32 bytes. |
| `PropagatedMessage.ContainerIsRead` | lxmf/src/message.rs:791-798 | The upload container is parsed as its one message, with whatever follows it as a stamp. |
| `PropagatedMessage.TransferIsServed` | lxmf/src/router.rs:2225-2264 | A new, well-stamped transfer is served to its destination byte for byte as before the stamp. |
| `PropagatedMessage.UnstampedUploadIsCut` | lxmf/src/router.rs:2225-2264 | For every upload with no stamp and every id new to the store: the id enters iff it is the unseen hash of the message less 32 bytes, these are a stamp for it at the node's cost, and the node stores it; then the message less 32 bytes is served. |
| `PropagatedMessage.UnstampedUploadIsNotServed` | lxmf/src/router.rs:753-772 | No client reads the whole message under any new id after such an upload. |
| `PropagatedMessage.LibraryUploadIsNotServed` | lxmf/src/router.rs:1724-1731 | Nor after the upload left by any calls and edits of a message. |
| `PropagatedMessage.TransportFormIsOpened` | lxmf/src/message.rs:766-809 | The reader recovers the author's message and id from the transport form, whenever encryption made one. |
| `PropagatedMessage.MessageThroughNode` | lxmf/src/router.rs:681-774 | A message packed by its author and transferred with a good stamp, which a client other than this library's `send` puts after it, to a node that serves others meanwhile is in the response to its reader's fetch if the limits suffice, and opens to the author's message and id, with a valid signature if the author's key is known. |
| `InboundQueues.New` | src/transport.rs:4936-4949 | Four empty queues, no drops counted, the given sizes with 0 standing for the class default. |
| `InboundQueues.InboundQueues.PutItem` | src/transport.rs:4953-4962 | Appends if there is room, otherwise counts a drop. |
| `InboundQueues.InboundQueues.GetItem` | src/transport.rs:4965-4972 | Takes the head of the first non-empty class. |
| `InboundQueues.InboundQueues.Burst` | src/transport.rs:5933-5962 | A batch put and drained leaves the queues empty and gives them laid end to end. |
| `InboundQueues.PutAllKeepsFirst` | src/transport.rs:4953-4962 | Each class takes the first items that fit, in order of arrival, and counts the rest. |
| `InboundQueues.BurstIsClassByClass` | src/transport.rs:5933-5962 | From empty queues the output is, class by class, the first min(capacity, count) items, and each counter grows by the excess. |
| `InboundQueues.EveryRunIsConserved` | src/transport.rs:4936-4994 | For every interleaving of puts and gets, per class: accepted is taken followed by queued, and offered is accepted plus dropped. |
| `Receipts.ReceiptTable.Cull` | src/transport.rs:5158-5183 | The sweep and the eviction loop yield a cull in the sense below. |
| `Receipts.ReceiptTable.Check` | src/transport.rs:5133-5153 | Timed-out receipts are concluded, then culled. |
| `Receipts.ReceiptTable.Insert` | src/transport.rs:2116-2128 | A new receipt in flight, then a cull. |
| `Receipts.ReceiptTable.Prove` | src/transport.rs:2798-2802 | A valid proof marks the stored receipt delivered now. |
| `Receipts.ReceiptTable.SetTimeout` | src/transport.rs:2440-2450 | Changes the timeout of a known receipt and says whether it was known. |
| `Receipts.OldestInFlight` | src/transport.rs:5168-5172 | The scan finds an in-flight receipt no younger than any other, if there is one. |
| `Receipts.CullPromises` | src/transport.rs:5155-5183 | At most 1024 remain, exactly the excess goes, and while a receipt in flight remains only older in-flight ones were evicted. |
| `Receipts.CullIsExact` | src/transport.rs:5155-5183 | Of the table before: what stays is in flight or concluded under five seconds ago, and unchanged; such a receipt goes only if there are more than 1024, in flight before younger ones, concluded only when nothing in flight stays and before later ones. |
| `Receipts.CheckedReceipt` | src/transport.rs:5133-5153 | After a check a receipt is in flight iff its timeout lies ahead, else failed, or culled if it had none; concluded ones are as they were. |
| `Receipts.NewTimeoutTakesEffect` | src/transport.rs:2440-2450 | A timeout set for a receipt in flight is the one the next check goes by, and no other receipt changes. |
| `Receipts.ProvenStaysReadable` | src/transport.rs:5128-5130 | On every run a proven receipt stays readable as delivered for five seconds, while the table has room and the key is not used again. |
| `Receipts.EveryRunIsConsistent` | src/transport.rs:2116-2128 | On every run at every moment a receipt is in flight iff it has no conclusion time, and the table holds at most 1024. |
| `PersistedPaths.RowRoundTrip` | src/transport.rs:5390-5429 | A saved pending path is parsed back with every field unchanged. |
| `PersistedPaths.RowItems` | src/transport.rs:5390-5429 | Which value stands at which place of a row. |
| `PersistedPaths.TableBytesRoundTrip` | src/transport.rs:5390-5429 | So is a whole table, from the bytes it is packed into. |
| `FloatLaws.DoubleIsNearest` | src/transport.rs:5363-5369 | The double of an integer is the nearest one, ties to even, and the integer itself below 2^53. |
| `FloatLaws.IntegerReadsAsDouble` | src/transport.rs:5363-5369 | Every signed or unsigned 64-bit integer reads as the double of its magnitude with its sign. |
| `PersistedPaths.ClassifyStableIds` | src/iface.rs:1125-1148 | The two loops compute exactly the ids with one live owner, with that owner, and the ids with several. |
| `PersistedPaths.ClassifiedOnce` | src/iface.rs:1119-1124 | Every live id is in exactly one of the two; ambiguous means two or more owners. |
| `PathRestore.PathHandler.Save` | src/transport.rs:5431-5507 | Rows of live paths, then of pending paths without a live one; nothing without storage or while connected to a shared instance. |
| `PathRestore.SavedUnder` | src/iface.rs:1108-1117 | A live path is saved under the id of the last live interface at its address, and not at all iff none is there. |
| `PathRestore.LatestBlobs` | src/transport.rs:5440-5467 | At most 32 blobs are saved with it, the latest. |
| `PathRestore.PathHandler.Load` | src/transport.rs:5755-5817 | The early returns, the restoring loop, and what stays pending. |
| `PathRestore.PathHandler.Reload` | src/transport.rs:2470-2476 | Forgets what was read, then loads. |
| `PathRuns.StepKeepsPendingIff` | src/transport.rs:5468-5495 | For every step exactly when a pending path stays pending and saved with every field unchanged. |
| `PathRuns.PendingPathSurvives` | src/transport.rs:5468-5495 | It does on every run of saves, loads, reloads and path changes whose loads and reloads find its interface absent, whose reloads find another live, and which learns no path to its destination. |
| `PathRuns.PendingPathIsRestoredWhenLive` | src/transport.rs:5787-5817 | After any such run, the first load or reload that finds its interface live takes it off the pending list and puts it in the table, bound to that interface, iff there is one owner and the announce is accepted. |
| `PathRuns.ReloadThenSaveKeepsIffScanned` | src/transport.rs:2470-2476 | A reload and then a save keep a path of an absent interface iff the reload scans the table. |
| `PathRuns.SaveKeepsIffRead` | src/transport.rs:5470-5474 | With no live path to its destination, a save keeps a pending path iff the table has been read. |
| `PathRuns.ReloadWithoutInterfacesLosesPaths` | src/transport.rs:2470-2476 | A reload without live interfaces followed by a save loses every pending path. |
| `PathRuns.ReadingMakesPending` | src/transport.rs:5787-5805 | Reading the table makes a saved path of an absent interface pending. |
| `PathRuns.RestoresExactly` | src/transport.rs:5796-5807 | A path read is restored, bound to its owner, iff exactly one live interface owns its id and its announce is accepted; else its table entry is unchanged. |
| `PathRuns.LivePathSurvivesRestart` | src/transport.rs:5440-5467 | A live path with a cached announce, saved and read after a restart, is put back with its fields, bound to the one live owner of its stable id. |
| `PathRuns.SavedPathsAre` | src/transport.rs:5431-5507 | Exactly what a save leaves: nothing new without storage, with a shared instance or a failed write; else the live paths with a live interface and a cached announce, in order, then the pending ones without a live path. |
| `PathRuns.SavedRowsAreDistinct` | src/transport.rs:5431-5507 | A saved table has no two rows for one destination. |
| `PathRuns.NoDestinationTwice` | src/transport.rs:5431-5507 | Over any run neither table nor pending list gains a destination twice. |
| `Filters.ChannelSplits` | lxst/src/filters.rs:76-90 | Cutting a channel's signal anywhere and carrying the memory over changes neither output nor memory. |
| `Filters.FramesSplit` | lxst/src/filters.rs:60-93 | Filtering two frames in turn is filtering them joined: same samples, same state. |
| `Filters.StreamingIsWhole` | lxst/src/filters.rs:60-153 | However a signal is cut into frames, high-pass and low-pass give sample for sample what the whole signal gives, from any state. |
| `Filters.BandStreamingIsWhole` | lxst/src/filters.rs:187-195 | The same for the band-pass cascade. |
| `Filters.IncompleteRowIsDropped` | lxst/src/common.rs:61-66 | A frame with an incomplete last row is filtered as the frame without it. |
| `FilterObjects.LaterRow` | lxst/src/filters.rs:82-86 | A later row, computed from the output and input of the row before it, is the recurrence carried over from the frame boundary. |
| `FilterObjects.HighPassChannel` | lxst/src/filters.rs:76-90 | The first row from the kept memory, later rows from the output buffer and the input frame: exactly its channel's slots get the filtered samples. |
| `FilterObjects.LowPassChannel` | lxst/src/filters.rs:142-150 | The same for the low-pass. |
| `FilterObjects.FilterFrame` | lxst/src/filters.rs:74-91 | The loop over channels fills the interleaved output and the memories. |
| `FilterObjects.HighPass.HandleFrame` | lxst/src/filters.rs:61-92 | Output and new state for every frame, empty ones, incomplete rows and changes of rate or channel count included. |
| `FilterObjects.LowPass.HandleFrame` | lxst/src/filters.rs:128-152 | The same for the low-pass. |
| `FilterObjects.BandPass.HandleFrame` | lxst/src/filters.rs:188-194 | High-pass, then low-pass; an empty frame touches neither. |
| `FilterLaws.HandledChannel` | lxst/src/filters.rs:49-92 | In a state any frames lead to, each channel is filtered with the coefficient of the frame's own rate from what it carried over, or from nothing after a change of channels. |
| `FilterLaws.FiltersAddUp` | lxst/src/filters.rs:25-153 | With exact arithmetic, however a signal is cut into frames, an unused high-pass and low-pass of one cut give outputs that add up to it, sample for sample. |
| `FilterLaws.HighPassDecays` | lxst/src/filters.rs:76-90 | A steady input dies away geometrically through the high-pass. |
| `FilterLaws.LowPassSettles` | lxst/src/filters.rs:142-150 | Through the low-pass the distance from it does. |

## Left out

- Tasks, locks, sleeps, broadcast capacity and lag: handlers are atomic steps and broadcasts are appends to a log.
- Delivery of the stream's end mark: it is sent once without retry, so nothing says it arrives.
- Retry timing of the channel and its round trip times: timeouts may fire at any time.
- Channel `last_pending` and `last_receipt`: nothing sets them.
- The choice between packet and resource representation, and transport encryption labels: simple case distinctions.
- File persistence of messages and tickets, peers and offers of the propagation node, announce data: they follow from the value codec.
- The `rmpv` encoder of the path-table file: the codec of `Msgpack` stands for it.
- PersistedPaths.TableBytesRoundTrip: for stored times below 2^63, which the codec carries as integers.
- PathRestore.PathHandler.Load: the packet hash list and the tunnel table it also loads are not modelled.
- What the downloading client does with a message it cannot decrypt or already has: it acknowledges it all the same, and only that is modelled.
- Tunnel table, packet hash list, link and announce tables, interface workers: not part of this model.
- The band-pass constructor's check of its two frequencies: frequencies are uninterpreted.
- AGC and tone generation: floating-point heuristics.
- FilterObjects.HighPass.HandleFrame: not for a non-empty frame shorter than one row, on which the source panics.
- FilterObjects.LowPass.HandleFrame: the same.
- FilterObjects.BandPass.HandleFrame: the same.
- Stamper.GenerateAgainst: the random source is a finite list of draws; running out of it stands for a search that has not ended.
- Router.Router.Send: the outbound queue, message states and transport encryption labels are not modelled.
- PropagationSession.SessionRemovesExactly: for listings below 2^32 ids and files below 2^32 bytes; repetition of a listed id during the session is excluded.
- PropagatedMessage.MessageThroughNode: the same bounds; loss, expiry and repetition of the message are excluded, and a bound the client sets on the number of messages covers the listing.
- Ingesting with a stamp or stamp value of the caller's own choice: `lxmf_propagation` is public; the model has its calls with neither, and those of a transfer.
- Upload.UploadCarriesNoStamp: edits may change any field of a message except its packed bytes, transient id, propagation stamp and upload, which are public too; an application that sets those by hand is not covered.

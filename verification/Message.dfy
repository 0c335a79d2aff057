/** LXMF messages: packing, signing, stamping and unpacking (lxmf/src/message.rs). */
module Message {
  import opened Octets
  import opened Crypto
  import opened Fields
  import Msgpack
  import Stamper
  import Base64

  const DESTINATION_LENGTH: nat := 16
  const SIGNATURE_LENGTH: nat := 64
  const HEAD_LENGTH: nat := 2 * DESTINATION_LENGTH + SIGNATURE_LENGTH
  const COST_TICKET: nat := 0x100
  const SOURCE_UNKNOWN: Byte := 0x01
  const SIGNATURE_INVALID: Byte := 0x02
  const OPPORTUNISTIC: Byte := 0x01
  const DIRECT: Byte := 0x02
  const PROPAGATED: Byte := 0x03
  const PAPER: Byte := 0x05
  const PAYLOAD_OVERHEAD: nat := 16
  const ENCRYPTED_PACKET_MAX_CONTENT: nat := 295

  /** Reply tickets are as long as addresses. */
  type Ticket = Address

  datatype Error =
    | AlreadyPacked
    | NotPacked
    | PathUnknown
    | ContentTooLarge
    | UnsupportedMethod
    | CannotEncrypt
    | InvalidFormat
    | Undecryptable
    | Codec(codec: Msgpack.Error)
    | BadFields(fields: FieldError)

  /** Timestamps are IEEE 754 bit patterns. `messageId` stands for both `hash` and its alias. */
  datatype Message = Message(
    destinationHash: Address,
    sourceHash: Address,
    destinationIdentity: Option<Public>,
    title: Bytes,
    content: Bytes,
    fields: seq<Field>,
    timestamp: Option<nat>,
    signature: Option<Signature>,
    messageId: Option<Digest>,
    packedPayload: Option<Bytes>,
    packed: Option<Bytes>,
    paperPacked: Option<Bytes>,
    desiredMethod: Option<Byte>,
    stamp: Option<Bytes>,
    stampCost: Option<Byte>,
    stampValue: Option<nat>,
    stampValid: bool,
    deferStamp: bool,
    outboundTicket: Option<Ticket>,
    signatureValidated: bool,
    unverifiedReason: Option<Byte>)

  function NewMessage(destinationHash: Address, sourceHash: Address, title: Bytes, content: Bytes): Message {
    Message(destinationHash, sourceHash, None, title, content, [], None, None, None, None, None, None, None,
            None, None, None, false, true, None, false, None)
  }

  // ---- Payload --------------------------------------------------------------------------------

  function PackBin(data: Bytes): Bytes {
    Msgpack.WriteBinLen(Msgpack.Len32(|data|)) + data
  }

  /** `pack_payload`: written field by field, not through a value. */
  function PackPayload(m: Message, timestamp: nat, stamp: Option<Bytes>): Bytes {
    Msgpack.WriteArrayLen(if stamp.Some? then 5 else 4)
    + Msgpack.WriteF64(timestamp)
    + PackBin(m.title)
    + PackBin(m.content)
    + PackFields(m.fields)
    + (if stamp.Some? then PackBin(stamp.value) else [])
  }

  function PayloadItems(m: Message, timestamp: nat): seq<Msgpack.Value> {
    [Msgpack.F64(timestamp), Msgpack.Bin(m.title), Msgpack.Bin(m.content), Msgpack.Map(Lift(m.fields))]
  }

  function StampItem(stamp: Option<Bytes>): seq<Msgpack.Value> {
    if stamp.Some? then [Msgpack.Bin(stamp.value)] else []
  }

  lemma PackFourItems(items: seq<Msgpack.Value>, more: seq<Msgpack.Value>)
    requires |items| == 4
    ensures Msgpack.PackItems(items + more) ==
            Msgpack.Pack(items[0]) + Msgpack.Pack(items[1]) + Msgpack.Pack(items[2]) + Msgpack.Pack(items[3])
            + Msgpack.PackItems(more)
  {
    hide Msgpack.Pack;
    var all := items + more;
    assert all[1..][1..] == all[2..] && all[2..][1..] == all[3..] && all[3..][1..] == more;
    assert Msgpack.PackItems(all[3..]) == Msgpack.Pack(items[3]) + Msgpack.PackItems(more);
    assert Msgpack.PackItems(all[2..]) == Msgpack.Pack(items[2]) + Msgpack.PackItems(all[3..]);
    assert Msgpack.PackItems(all[1..]) == Msgpack.Pack(items[1]) + Msgpack.PackItems(all[2..]);
  }

  /** The sender writes the same bytes a generic encoder makes of the four or five values. */
  lemma PackPayloadIsPack(m: Message, timestamp: nat, stamp: Option<Bytes>)
    ensures PackPayload(m, timestamp, stamp)
            == Msgpack.Pack(Msgpack.Array(PayloadItems(m, timestamp) + StampItem(stamp)))
  {
    hide Msgpack.WriteArrayLen, Msgpack.WriteF64, PackFields, Msgpack.PackItems, PackBin;
    var items := PayloadItems(m, timestamp);
    PackFourItems(items, StampItem(stamp));
    PackFieldsIsPackMap(m.fields);
    PackBinIsPack(m.title);
    PackBinIsPack(m.content);
    PackStampIsPack(stamp);
    Associative(Msgpack.WriteArrayLen(|items + StampItem(stamp)|), Msgpack.WriteF64(timestamp), PackBin(m.title),
                PackBin(m.content), PackFields(m.fields), Msgpack.PackItems(StampItem(stamp)));
  }

  lemma PackBinIsPack(data: Bytes)
    ensures Msgpack.Pack(Msgpack.Bin(data)) == PackBin(data)
  {
  }

  lemma PackStampIsPack(stamp: Option<Bytes>)
    ensures Msgpack.PackItems(StampItem(stamp)) == if stamp.Some? then PackBin(stamp.value) else []
  {
    if stamp.Some? {
      assert StampItem(stamp)[1..] == [];
      assert Msgpack.PackItems(StampItem(stamp)) == PackBin(stamp.value) + [];
    }
  }

  lemma Associative(h: Bytes, a: Bytes, b: Bytes, c: Bytes, d: Bytes, e: Bytes)
    ensures h + (a + b + c + d + e) == h + a + b + c + d + e
  {
  }

  // ---- Packing --------------------------------------------------------------------------------

  function HashedPart(m: Message, timestamp: nat): Bytes {
    m.destinationHash + m.sourceHash + PackPayload(m, timestamp, None)
  }

  function IdOf(c: Suite, m: Message, timestamp: nat): Digest {
    c.sha256(HashedPart(m, timestamp))
  }

  function TicketStamp(c: Suite, ticket: Ticket, messageId: Digest): Bytes {
    TruncatedHash(c, ticket + messageId)
  }

  /** `get_stamp`: a ticket comes first, then no cost, then an existing stamp, then a search. */
  function GetStamp(c: Suite, m: Message, draws: seq<Stamper.Stamp>): Option<Bytes> {
    match (m.outboundTicket, m.messageId, m.stampCost, m.stamp)
    case (Some(ticket), Some(id), _, _) => Some(TicketStamp(c, ticket, id))
    case (Some(_), None, _, _) => None
    case (None, _, None, _) => None
    case (None, _, Some(_), Some(stamp)) => Some(stamp)
    case (None, None, Some(_), None) => None
    case (None, Some(id), Some(cost), None) =>
      match Stamper.FirstValid(c, Stamper.Workblock(c, id, Stamper.WORKBLOCK_EXPAND_ROUNDS), cost, draws)
      case Some(stamp) => Some(stamp)
      case None => None
  }

  predicate Searches(m: Message) {
    m.outboundTicket.None? && m.messageId.Some? && m.stampCost.Some? && m.stamp.None?
  }

  /** What `get_stamp` leaves in the message besides returning the stamp. */
  function AfterGetStamp(c: Suite, m: Message, draws: seq<Stamper.Stamp>): (r: Message)
    ensures r == m.(stampValue := r.stampValue, stampValid := r.stampValid)
  {
    var stamp := GetStamp(c, m, draws);
    if stamp.None? then m
    else if m.outboundTicket.Some? then m.(stampValue := Some(COST_TICKET))
    else if Searches(m) then
      var workblock := Stamper.Workblock(c, m.messageId.value, Stamper.WORKBLOCK_EXPAND_ROUNDS);
      m.(stampValue := Some(Stamper.StampValue(c, workblock, stamp.value)), stampValid := true)
    else m
  }

  /** A message with its id fixed, before the stamp. */
  function Identified(c: Suite, m: Message, now: nat): (r: Message)
    ensures r == m.(timestamp := r.timestamp, paperPacked := None, messageId := r.messageId)
    ensures r.timestamp.Some? && r.messageId.Some?
  {
    var timestamp := if m.timestamp.Some? then m.timestamp.value else now;
    m.(timestamp := Some(timestamp), paperPacked := None, messageId := Some(IdOf(c, m, timestamp)))
  }

  /** Signed over the hashed bytes followed by the id. */
  function SignatureOf(c: Suite, m: Message, key: Secret): Signature
    requires m.timestamp.Some? && m.messageId.Some?
  {
    c.sign(key, HashedPart(m, m.timestamp.value) + m.messageId.value)
  }

  /** An identified message, signed and put together with its stamp. */
  function Sealed(c: Suite, m: Message, key: Secret, stamp: Option<Bytes>): Message
    requires m.timestamp.Some? && m.messageId.Some?
  {
    var signature := SignatureOf(c, m, key);
    var payload := PackPayload(m, m.timestamp.value, stamp);
    m.(
      stamp := if stamp.Some? then stamp else m.stamp,
      signature := Some(signature),
      signatureValidated := true,
      packedPayload := Some(payload),
      packed := Some(m.destinationHash + m.sourceHash + signature + payload))
  }

  /** `pack_core` on a message not packed yet. */
  function PackCore(c: Suite, m: Message, key: Secret, now: nat, draws: seq<Stamper.Stamp>): Message {
    var identified := Identified(c, m, now);
    if m.deferStamp then Sealed(c, identified, key, None)
    else Sealed(c, AfterGetStamp(c, identified, draws), key, GetStamp(c, identified, draws))
  }

  lemma PayloadIsText(m: Message, other: Message, timestamp: nat, stamp: Option<Bytes>)
    requires m.title == other.title && m.content == other.content && m.fields == other.fields
    ensures PackPayload(m, timestamp, stamp) == PackPayload(other, timestamp, stamp)
  {
  }

  /** `pack` after `pack_core`: the delivery method it settles on. What is too long for one packet
      goes over a link. */
  function Settled(m: Message): Message {
    var long := m.packedPayload.Some? && |m.packedPayload.value| > PAYLOAD_OVERHEAD + ENCRYPTED_PACKET_MAX_CONTENT;
    if m.desiredMethod.None? || (m.desiredMethod == Some(OPPORTUNISTIC) && long)
    then m.(desiredMethod := Some(DIRECT)) else m
  }

  function PackError(m: Message): Option<Error> {
    if m.desiredMethod == Some(OPPORTUNISTIC) || m.desiredMethod == Some(DIRECT) then None
    else Some(UnsupportedMethod)
  }

  /** `pack_paper` on a message not packed yet, and how it ends. */
  function PackPaper(c: Suite, m: Message, key: Secret, now: nat, draws: seq<Stamper.Stamp>, random: Bytes): Message {
    var packed := PackCore(c, m.(desiredMethod := Some(PAPER)), key, now, draws);
    if m.destinationIdentity.None? then packed
    else packed.(paperPacked := EncryptedForm(c, m.destinationIdentity.value, random, packed.packed.value))
  }

  /** The destination in clear, the rest encrypted for it, if that succeeds. */
  function EncryptedForm(c: Suite, destination: Public, random: Bytes, packed: Bytes): Option<Bytes>
    requires |packed| >= DESTINATION_LENGTH
  {
    match c.encrypt(destination, random, packed[DESTINATION_LENGTH..])
    case Some(sealed) => Some(packed[..DESTINATION_LENGTH] + sealed)
    case None => None
  }

  function PaperError(m: Message): Option<Error> {
    if m.destinationIdentity.None? then Some(PathUnknown)
    else if m.paperPacked.None? then Some(CannotEncrypt)
    else if |m.paperPacked.value| <= Base64.PAPER_MDU then None
    else Some(ContentTooLarge)
  }

  /** `as_uri`. It does not look at the size again. */
  function AsUri(m: Message): Result<Bytes, Error> {
    if m.packed.None? then Err(NotPacked)
    else if m.desiredMethod == Some(PAPER) && m.paperPacked.Some? then Ok(Base64.Uri(m.paperPacked.value))
    else Err(UnsupportedMethod)
  }

  // ---- Stamp validation -----------------------------------------------------------------------

  /** `validate_stamp`: the work value it records, if it accepts the stamp. */
  function StampWorth(c: Suite, m: Message, cost: Option<Byte>, tickets: seq<Ticket>): Option<nat> {
    if MatchesTicket(c, m, tickets) then Some(COST_TICKET)
    else if m.stamp.None? || cost.None? || m.messageId.None? then None
    else
      var workblock := Stamper.Workblock(c, m.messageId.value, Stamper.WORKBLOCK_EXPAND_ROUNDS);
      if Stamper.StampValid(c, m.stamp.value, cost.value, workblock)
      then Some(Stamper.StampValue(c, workblock, m.stamp.value)) else None
  }

  predicate MatchesTicket(c: Suite, m: Message, tickets: seq<Ticket>) {
    exists k :: 0 <= k < |tickets| && StampedWith(c, m, tickets[k])
  }

  predicate StampedWith(c: Suite, m: Message, ticket: Ticket) {
    m.messageId.Some? && m.stamp == Some(TicketStamp(c, ticket, m.messageId.value))
  }

  // ---- Unpacking ------------------------------------------------------------------------------

  type Resolver = Address -> Option<Public>

  function UnpackMessage(c: Suite, bytes: Bytes, resolver: Resolver): (r: Result<Message, Error>)
    ensures r.Ok? ==> r.value.messageId.Some?
  {
    if |bytes| < HEAD_LENGTH then Err(InvalidFormat)
    else
      match Msgpack.Unpack(bytes[HEAD_LENGTH..])
      case Failed(error) => Err(Codec(error))
      case Parsed(payload, _) => FromPayload(c, bytes, payload, resolver)
  }

  function FromPayload(c: Suite, bytes: Bytes, payload: Msgpack.Value, resolver: Resolver): Result<Message, Error>
    requires |bytes| >= HEAD_LENGTH
  {
    if !payload.Array? || |payload.items| < 4 then Err(InvalidFormat)
    else
      var items := payload.items;
      var last := items[|items| - 1];
      if |items| > 4 && !last.Bin? then Err(InvalidFormat)
      else if !items[0].F64? || !items[1].Bin? || !items[2].Bin? || !items[3].Map? then Err(InvalidFormat)
      else
        match FromValue(items[3])
        case Err(error) => Err(BadFields(error))
        case Ok(fields) =>
          Ok(Incoming(c, bytes, items, fields, if |items| > 4 then Some(last.data) else None, resolver))
  }

  /** The four-element payload, encoded again to recompute the id. */
  function Repacked(items: seq<Msgpack.Value>): Bytes
    requires |items| >= 4
  {
    Msgpack.WriteArrayLen(4)
    + Msgpack.Pack(items[0]) + Msgpack.Pack(items[1]) + Msgpack.Pack(items[2]) + Msgpack.Pack(items[3])
  }

  function Incoming(c: Suite, bytes: Bytes, items: seq<Msgpack.Value>, fields: seq<Field>, stamp: Option<Bytes>,
                    resolver: Resolver): Message
    requires |bytes| >= HEAD_LENGTH && |items| >= 4
    requires items[0].F64? && items[1].Bin? && items[2].Bin?
  {
    var destination: Address := bytes[..DESTINATION_LENGTH];
    var source: Address := bytes[DESTINATION_LENGTH..2 * DESTINATION_LENGTH];
    var signature: Signature := bytes[2 * DESTINATION_LENGTH..HEAD_LENGTH];
    var hashed := destination + source + Repacked(items);
    var id := c.sha256(hashed);
    var identity := resolver(source);
    var genuine := identity.Some? && c.verify(identity.value, hashed + id, signature);
    NewMessage(destination, source, items[1].data, items[2].data).(
      destinationIdentity := resolver(destination),
      fields := fields,
      timestamp := Some(items[0].bits),
      signature := Some(signature),
      messageId := Some(id),
      packedPayload := Some(Repacked(items)),
      packed := Some(bytes),
      stamp := stamp,
      signatureValidated := genuine,
      unverifiedReason := if genuine then None else if identity.Some? then Some(SIGNATURE_INVALID)
        else Some(SOURCE_UNKNOWN))
  }

  /** `unpack_from_uri`: the message and the transient id of the encrypted form. */
  function UnpackFromUri(c: Suite, uri: Bytes, key: Secret, resolver: Resolver): Result<(Message, Digest), Error> {
    match Base64.UriBytes(uri)
    case None => Err(InvalidFormat)
    case Some(data) =>
      if |data| < DESTINATION_LENGTH + Stamper.LXMF_OVERHEAD then Err(InvalidFormat)
      else
        match c.decrypt(key, data[DESTINATION_LENGTH..])
        case None => Err(Undecryptable)
        case Some(plain) =>
          match UnpackMessage(c, data[..DESTINATION_LENGTH] + plain, resolver)
          case Err(error) => Err(error)
          case Ok(m) => Ok((m, c.sha256(data)))
  }

  // ---- Round trip -----------------------------------------------------------------------------

  /** Everything the wire format can represent: lengths below 2^32, unique field ids. */
  predicate Packable(m: Message) {
    && |m.title| < Msgpack.TWO_32 && |m.content| < Msgpack.TWO_32
    && Distinct(m.fields)
    && (forall k :: 0 <= k < |m.fields| ==> Msgpack.WellFormed(m.fields[k].value))
    && (m.timestamp.Some? ==> m.timestamp.value < Msgpack.TWO_64)
    && (m.stamp.Some? ==> |m.stamp.value| < Msgpack.TWO_32)
  }

  lemma PayloadIsWellFormed(m: Message, timestamp: nat, stamp: Option<Bytes>)
    requires Packable(m) && timestamp < Msgpack.TWO_64 && (stamp.Some? ==> |stamp.value| < Msgpack.TWO_32)
    ensures Msgpack.WellFormed(Msgpack.Array(PayloadItems(m, timestamp) + StampItem(stamp)))
  {
    DistinctIsShort(m.fields);
    LiftIsWellFormed(m.fields);
  }

  /** Any payload in the sender's form is read back, whatever head precedes it. */
  lemma PayloadRoundTrip(c: Suite, head: Bytes, m: Message, timestamp: nat, stamp: Option<Bytes>, resolver: Resolver)
    requires |head| == HEAD_LENGTH && Packable(m) && timestamp < Msgpack.TWO_64
    requires stamp.Some? ==> |stamp.value| < Msgpack.TWO_32
    ensures UnpackMessage(c, head + PackPayload(m, timestamp, stamp), resolver) ==
            Ok(Incoming(c, head + PackPayload(m, timestamp, stamp), PayloadItems(m, timestamp), m.fields, stamp,
              resolver))
    ensures Repacked(PayloadItems(m, timestamp)) == PackPayload(m, timestamp, None)
  {
    hide Msgpack.Pack, Msgpack.Unpack, Msgpack.WellFormed, PackPayload, FromValue, Msgpack.WriteArrayLen;
    var items := PayloadItems(m, timestamp);
    var all := items + StampItem(stamp);
    var bytes := head + PackPayload(m, timestamp, stamp);
    PackPayloadIsPack(m, timestamp, stamp);
    PayloadIsWellFormed(m, timestamp, stamp);
    Msgpack.RoundTrip(Msgpack.Array(all), []);
    assert bytes[HEAD_LENGTH..] == Msgpack.Pack(Msgpack.Array(all)) + [];
    FieldsRoundTrip(m.fields);
    IncomingReadsFourItems(c, bytes, items, all, m.fields, stamp, resolver);
    RepackedIsPack(items);
    PackPayloadIsPack(m, timestamp, None);
    assert items + StampItem(None) == items;
  }

  lemma IncomingReadsFourItems(c: Suite, bytes: Bytes, items: seq<Msgpack.Value>, all: seq<Msgpack.Value>,
                               fields: seq<Field>, stamp: Option<Bytes>, resolver: Resolver)
    requires |bytes| >= HEAD_LENGTH && |items| == 4 <= |all| && all[..4] == items
    requires items[0].F64? && items[1].Bin? && items[2].Bin?
    ensures Incoming(c, bytes, items, fields, stamp, resolver) == Incoming(c, bytes, all, fields, stamp, resolver)
  {
    assert forall k :: 0 <= k < 4 ==> items[k] == all[k];
    assert Repacked(items) == Repacked(all);
  }

  lemma RepackedIsPack(items: seq<Msgpack.Value>)
    requires |items| == 4
    ensures Repacked(items) == Msgpack.Pack(Msgpack.Array(items))
  {
    hide Msgpack.WriteArrayLen, Msgpack.PackItems;
    PackFourItems(items, []);
    assert items + [] == items;
    PackStampIsPack(None);
    Associative(Msgpack.WriteArrayLen(4), Msgpack.Pack(items[0]), Msgpack.Pack(items[1]), Msgpack.Pack(items[2]),
                Msgpack.Pack(items[3]), []);
  }

  /** The four-part head of packed bytes is taken apart at the right places. */
  lemma HeadParts(destination: Address, source: Address, signature: Signature, payload: Bytes)
    ensures var bytes := destination + source + signature + payload;
            && bytes[..DESTINATION_LENGTH] == destination
            && bytes[DESTINATION_LENGTH..2 * DESTINATION_LENGTH] == source
            && bytes[2 * DESTINATION_LENGTH..HEAD_LENGTH] == signature
            && bytes == (destination + source + signature) + payload
  {
  }

  lemma GetStampIsShort(c: Suite, m: Message, draws: seq<Stamper.Stamp>)
    requires Packable(m)
    ensures var stamp := GetStamp(c, m, draws); stamp.Some? ==> |stamp.value| < Msgpack.TWO_32
  {
  }

  /** The stamp that goes out with a packed message. */
  function SentStamp(c: Suite, m: Message, now: nat, draws: seq<Stamper.Stamp>): Option<Bytes> {
    if m.deferStamp then None else GetStamp(c, Identified(c, m, now), draws)
  }

  /** Packing fixes the time, the id and the signature, and keeps what the author wrote. */
  lemma PackCoreSets(c: Suite, m: Message, key: Secret, now: nat, draws: seq<Stamper.Stamp>)
    ensures var sent := PackCore(c, m, key, now, draws);
            && sent.timestamp == Some(if m.timestamp.Some? then m.timestamp.value else now)
            && sent.messageId == Some(c.sha256(HashedPart(m, sent.timestamp.value)))
            && sent.signature == Some(c.sign(key, HashedPart(m, sent.timestamp.value) + sent.messageId.value))
            && sent.destinationHash == m.destinationHash && sent.sourceHash == m.sourceHash
            && sent.destinationIdentity == m.destinationIdentity
            && sent.title == m.title && sent.content == m.content && sent.fields == m.fields
            && sent.packed == Some(m.destinationHash + m.sourceHash + sent.signature.value
                                   + PackPayload(m, sent.timestamp.value, SentStamp(c, m, now, draws)))
  {
    hide PackPayload, GetStamp;
    var sent := PackCore(c, m, key, now, draws);
    PayloadIsText(m, Identified(c, m, now), sent.timestamp.value, None);
    PayloadIsText(m, Identified(c, m, now), sent.timestamp.value, SentStamp(c, m, now, draws));
    PayloadIsText(m, AfterGetStamp(c, Identified(c, m, now), draws), sent.timestamp.value, None);
    PayloadIsText(m, AfterGetStamp(c, Identified(c, m, now), draws), sent.timestamp.value, SentStamp(c, m, now, draws));
  }

  /** What a receiver recovers from a packed message: everything that was sent, under the same id,
      whether or not a stamp was added. */
  ghost predicate Recovered(sent: Message, got: Message, stamp: Option<Bytes>) {
    && got.destinationHash == sent.destinationHash && got.sourceHash == sent.sourceHash
    && got.title == sent.title && got.content == sent.content && got.fields == sent.fields
    && got.timestamp == sent.timestamp && got.stamp == stamp
    && got.messageId == sent.messageId && got.signature == sent.signature
    && got.packed == sent.packed
  }

  lemma MessageRoundTrip(c: Suite, m: Message, key: Secret, now: nat, draws: seq<Stamper.Stamp>, resolver: Resolver)
    requires Packable(m) && now < Msgpack.TWO_64
    ensures var sent := PackCore(c, m, key, now, draws);
            var got := UnpackMessage(c, sent.packed.value, resolver);
            && got.Ok? && Recovered(sent, got.value, SentStamp(c, m, now, draws))
            && (SignaturesVerify(c) && resolver(m.sourceHash) == Some(c.public(key)) ==>
                  got.value.signatureValidated && got.value.unverifiedReason == None)
  {
    hide PackPayload, UnpackMessage, GetStamp, Repacked, PackCore, Packable;
    var sent := PackCore(c, m, key, now, draws);
    PackCoreSets(c, m, key, now, draws);
    SentStampIsShort(c, m, now, draws);
    WireRoundTrip(c, m, sent.timestamp.value, sent.signature.value, SentStamp(c, m, now, draws), resolver);
  }

  /** Reading a packed message recomputes the id from the same bytes the sender hashed. */
  lemma WireRoundTrip(c: Suite, m: Message, timestamp: nat, signature: Signature, stamp: Option<Bytes>,
                      resolver: Resolver)
    requires Packable(m) && timestamp < Msgpack.TWO_64 && (stamp.Some? ==> |stamp.value| < Msgpack.TWO_32)
    ensures var bytes := m.destinationHash + m.sourceHash + signature + PackPayload(m, timestamp, stamp);
            var got := UnpackMessage(c, bytes, resolver);
            var id := c.sha256(HashedPart(m, timestamp));
            && got.Ok?
            && got.value.destinationHash == m.destinationHash && got.value.sourceHash == m.sourceHash
            && got.value.title == m.title && got.value.content == m.content && got.value.fields == m.fields
            && got.value.timestamp == Some(timestamp) && got.value.stamp == stamp
            && got.value.messageId == Some(id) && got.value.signature == Some(signature)
            && got.value.packed == Some(bytes) && got.value.packedPayload == Some(PackPayload(m, timestamp, None))
            && (got.value.signatureValidated <==>
                  resolver(m.sourceHash).Some?
                  && c.verify(resolver(m.sourceHash).value, HashedPart(m, timestamp) + id, signature))
            && (got.value.unverifiedReason.None? <==> got.value.signatureValidated)
  {
    hide PackPayload, UnpackMessage, Repacked, Packable;
    HeadParts(m.destinationHash, m.sourceHash, signature, PackPayload(m, timestamp, stamp));
    PayloadRoundTrip(c, m.destinationHash + m.sourceHash + signature, m, timestamp, stamp, resolver);
  }

  lemma SentStampIsShort(c: Suite, m: Message, now: nat, draws: seq<Stamper.Stamp>)
    requires Packable(m) && now < Msgpack.TWO_64
    ensures var stamp := SentStamp(c, m, now, draws); stamp.Some? ==> |stamp.value| < Msgpack.TWO_32
    ensures m.timestamp.Some? ==> m.timestamp.value < Msgpack.TWO_64
  {
    GetStampIsShort(c, Identified(c, m, now), draws);
  }

  ghost predicate SameText(m: Message, other: Message) {
    && m.destinationHash == other.destinationHash && m.sourceHash == other.sourceHash
    && m.title == other.title && m.content == other.content && m.fields == other.fields
    && m.timestamp == other.timestamp
  }

  /** The id and the signature depend on neither the stamp nor anything that decides about it. */
  lemma IdIgnoresStamp(c: Suite, m: Message, other: Message, key: Secret, now: nat, draws: seq<Stamper.Stamp>,
                       redraws: seq<Stamper.Stamp>)
    requires SameText(m, other)
    ensures PackCore(c, m, key, now, draws).messageId == PackCore(c, other, key, now, redraws).messageId
    ensures PackCore(c, m, key, now, draws).signature == PackCore(c, other, key, now, redraws).signature
  {
    hide PackCore, GetStamp;
    PackCoreSets(c, m, key, now, draws);
    PackCoreSets(c, other, key, now, redraws);
  }

  // ---- Arbitrary received bytes ---------------------------------------------------------------

  /** The stampless form of an accepted message. */
  ghost function Canonical(m: Message): Bytes
    requires m.signature.Some? && m.packedPayload.Some?
  {
    m.destinationHash + m.sourceHash + m.signature.value + m.packedPayload.value
  }

  /** Whatever bytes were accepted (longer than minimal encodings, extra elements, trailing bytes,
      any stamp), their stampless minimal form carries the same message: same id, same contents,
      same verdict on the signature. */
  lemma ReceivedIsStable(c: Suite, bytes: Bytes, resolver: Resolver)
    requires UnpackMessage(c, bytes, resolver).Ok?
    ensures var m := UnpackMessage(c, bytes, resolver).value;
            && m.signature.Some? && m.packedPayload.Some?
            && m.messageId == Some(c.sha256(m.destinationHash + m.sourceHash + m.packedPayload.value))
            && UnpackMessage(c, Canonical(m), resolver) == Ok(m.(stamp := None, packed := Some(Canonical(m))))
  {
    hide Msgpack.Unpack, Msgpack.Pack, FromValue, Repacked;
    var m := UnpackMessage(c, bytes, resolver).value;
    var items := Msgpack.Unpack(bytes[HEAD_LENGTH..]).value.items;
    var four := items[..4];
    RepackedFour(items);
    FourAreWellFormed(bytes[HEAD_LENGTH..]);
    Msgpack.RoundTrip(Msgpack.Array(four), []);
    HeadParts(m.destinationHash, m.sourceHash, m.signature.value, m.packedPayload.value);
    assert Canonical(m)[HEAD_LENGTH..] == Msgpack.Pack(Msgpack.Array(four)) + [];
    assert forall k :: 0 <= k < 4 ==> four[k] == items[k];
  }

  lemma RepackedFour(items: seq<Msgpack.Value>)
    requires |items| >= 4
    ensures Repacked(items) == Repacked(items[..4]) == Msgpack.Pack(Msgpack.Array(items[..4]))
  {
    RepackedIsPack(items[..4]);
  }

  lemma FourAreWellFormed(b: Bytes)
    requires Msgpack.Unpack(b).Parsed? && Msgpack.Unpack(b).value.Array? && |Msgpack.Unpack(b).value.items| >= 4
    ensures Msgpack.WellFormed(Msgpack.Array(Msgpack.Unpack(b).value.items[..4]))
  {
    hide Msgpack.Unpack;
    Msgpack.UnpackedIsWellFormed(b);
  }

  /** The received field map, before duplicates merge. */
  ghost function ReceivedMap(bytes: Bytes): seq<Msgpack.Entry>
    requires |bytes| >= HEAD_LENGTH
  {
    var r := Msgpack.Unpack(bytes[HEAD_LENGTH..]);
    if r.Parsed? && r.value.Array? && |r.value.items| >= 4 && r.value.items[3].Map? then r.value.items[3].entries
    else []
  }

  ghost predicate UniqueKeys(entries: seq<Msgpack.Entry>) {
    forall i, j :: 0 <= i < j < |entries| ==> entries[i].key != entries[j].key
  }

  lemma {:induction false} ReadEntriesAreLifted(entries: seq<Msgpack.Entry>, sofar: seq<Field>)
    requires FromEntries(entries, sofar).Ok? && Distinct(sofar)
    requires UniqueKeys(Lift(sofar) + entries)
    ensures Lift(FromEntries(entries, sofar).value) == Lift(sofar) + entries
    decreases |entries|
  {
    hide UniqueKeys, Distinct, Inserted, Lift;
    if entries == [] {
      assert Lift(sofar) + entries == Lift(sofar);
    } else {
      var id, value := entries[0].key.i, entries[0].value;
      var next := sofar + [Field(id, value)];
      NewIdIsAppended(entries, sofar);
      assert Lift(next) == Lift(sofar) + [entries[0]];
      assert Lift(next) + entries[1..] == Lift(sofar) + entries;
      ReadEntriesAreLifted(entries[1..], next);
    }
  }

  lemma NewIdIsAppended(entries: seq<Msgpack.Entry>, sofar: seq<Field>)
    requires entries != [] && entries[0].key.Int? && 0 <= entries[0].key.i <= 0xff
    requires Distinct(sofar) && UniqueKeys(Lift(sofar) + entries)
    ensures var next := sofar + [Field(entries[0].key.i, entries[0].value)];
            Inserted(sofar, entries[0].key.i, entries[0].value) == next && Distinct(next)
  {
    var all := Lift(sofar) + entries;
    assert all[|sofar|] == entries[0];
    assert forall j :: 0 <= j < |sofar| ==> all[j] == Lift(sofar)[j];
  }

  /** Packing a received message again gives the bytes its id was computed from exactly when the
      received field map had no id twice; a repeated id is hashed twice but kept once. */
  lemma RepackReproducesHashedBytes(c: Suite, bytes: Bytes, resolver: Resolver)
    requires UnpackMessage(c, bytes, resolver).Ok?
    ensures var m := UnpackMessage(c, bytes, resolver).value;
            PackPayload(m, m.timestamp.value, None) == m.packedPayload.value <==> UniqueKeys(ReceivedMap(bytes))
  {
    hide Msgpack.Unpack, Msgpack.Pack, Repacked, PackPayload, Msgpack.WellFormed, Lift;
    var m := UnpackMessage(c, bytes, resolver).value;
    var items := Msgpack.Unpack(bytes[HEAD_LENGTH..]).value.items;
    var entries := items[3].entries;
    RepackedFour(items);
    FourAreWellFormed(bytes[HEAD_LENGTH..]);
    PackPayloadIsPack(m, m.timestamp.value, None);
    var own := PayloadItems(m, m.timestamp.value);
    assert own + StampItem(None) == own;
    FromEntriesIsDistinct(entries, []);
    LiftedIffUnique(entries, m.fields);
    assert own == items[..4] <==> own[3] == items[3];
    if PackPayload(m, m.timestamp.value, None) == m.packedPayload.value {
      EntriesAreWellFormed(items);
      ReadFieldsAreWellFormed(entries, []);
      LiftIsWellFormed(m.fields);
      OwnPayloadIsWellFormed(own, items);
      Msgpack.PrefixFree(Msgpack.Array(own), Msgpack.Array(items[..4]), [], []);
    }
  }

  lemma EntriesAreWellFormed(items: seq<Msgpack.Value>)
    requires |items| >= 4 && items[3].Map? && Msgpack.WellFormed(Msgpack.Array(items[..4]))
    ensures |items[3].entries| < Msgpack.TWO_32
    ensures forall k :: 0 <= k < |items[3].entries| ==> Msgpack.WellFormed(items[3].entries[k].value)
  {
    assert Msgpack.WellFormed(items[..4][3]);
  }

  lemma OwnPayloadIsWellFormed(own: seq<Msgpack.Value>, items: seq<Msgpack.Value>)
    requires |own| == 4 <= |items| && own[..3] == items[..3]
    requires Msgpack.WellFormed(Msgpack.Array(items[..4])) && Msgpack.WellFormed(own[3])
    ensures Msgpack.WellFormed(Msgpack.Array(own))
  {
    assert forall k :: 0 <= k < 3 ==> own[k] == own[..3][k] == items[..4][k];
  }

  lemma LiftedIffUnique(entries: seq<Msgpack.Entry>, fields: seq<Field>)
    requires FromEntries(entries, []) == Ok(fields) && Distinct(fields)
    ensures Lift(fields) == entries <==> UniqueKeys(entries)
  {
    if UniqueKeys(entries) {
      assert Lift([]) + entries == entries;
      ReadEntriesAreLifted(entries, []);
    }
  }

  lemma {:induction false} ReadFieldsAreWellFormed(entries: seq<Msgpack.Entry>, sofar: seq<Field>)
    requires FromEntries(entries, sofar).Ok?
    requires forall k :: 0 <= k < |entries| ==> Msgpack.WellFormed(entries[k].value)
    requires forall k :: 0 <= k < |sofar| ==> Msgpack.WellFormed(sofar[k].value)
    ensures var fields := FromEntries(entries, sofar).value;
            |fields| <= |sofar| + |entries| && forall k :: 0 <= k < |fields| ==> Msgpack.WellFormed(fields[k].value)
    decreases |entries|
  {
    hide Msgpack.WellFormed;
    if entries != [] {
      ReadFieldsAreWellFormed(entries[1..], Inserted(sofar, entries[0].key.i, entries[0].value));
    }
  }

  // ---- What a signature pins down -------------------------------------------------------------

  /** The bytes a signature of `m` covers. */
  function SignedText(c: Suite, m: Message, timestamp: nat): Bytes {
    HashedPart(m, timestamp) + IdOf(c, m, timestamp)
  }

  /** The bytes a received message's signature is checked against. */
  function CheckedText(m: Message): Bytes
    requires m.packedPayload.Some? && m.messageId.Some?
  {
    m.destinationHash + m.sourceHash + m.packedPayload.value + m.messageId.value
  }

  /** A validated signature was checked over `CheckedText` under the key of the source. */
  lemma ValidatedMeansVerified(c: Suite, bytes: Bytes, resolver: Resolver)
    requires UnpackMessage(c, bytes, resolver).Ok?
    ensures var u := UnpackMessage(c, bytes, resolver).value;
            && u.packedPayload.Some? && u.messageId.Some? && u.signature.Some?
            && (u.signatureValidated <==>
                  resolver(u.sourceHash).Some?
                    && c.verify(resolver(u.sourceHash).value, CheckedText(u), u.signature.value))
  {
  }

  /** The signed text fixes the whole message: whoever re-encodes or re-stamps it cannot change
      what the receiver reads. */
  lemma SignedTextFixesMessage(c: Suite, m: Message, timestamp: nat, bytes: Bytes, resolver: Resolver)
    requires Packable(m) && timestamp < Msgpack.TWO_64
    requires UnpackMessage(c, bytes, resolver).Ok?
    requires var u := UnpackMessage(c, bytes, resolver).value;
             u.packedPayload.Some? && u.messageId.Some? && CheckedText(u) == SignedText(c, m, timestamp)
    ensures var u := UnpackMessage(c, bytes, resolver).value;
            && u.destinationHash == m.destinationHash && u.sourceHash == m.sourceHash
            && u.title == m.title && u.content == m.content && u.fields == m.fields
            && u.timestamp == Some(timestamp) && u.messageId == Some(IdOf(c, m, timestamp))
  {
    hide Msgpack.Unpack, Msgpack.Pack, Msgpack.WellFormed, Repacked, PackPayload, FromValue, Packable;
    var u := UnpackMessage(c, bytes, resolver).value;
    var items := Msgpack.Unpack(bytes[HEAD_LENGTH..]).value.items;
    var own := PayloadItems(m, timestamp);
    SplitText(m.destinationHash, m.sourceHash, PackPayload(m, timestamp, None), IdOf(c, m, timestamp),
              u.destinationHash, u.sourceHash, u.packedPayload.value, u.messageId.value);
    RepackedFour(items);
    FourAreWellFormed(bytes[HEAD_LENGTH..]);
    PackPayloadIsPack(m, timestamp, None);
    PayloadIsWellFormed(m, timestamp, None);
    assert own + StampItem(None) == own;
    Msgpack.PrefixFree(Msgpack.Array(own), Msgpack.Array(items[..4]), [], []);
    assert forall k :: 0 <= k < 4 ==> own[k] == items[..4][k] == items[k];
    PackableIsDistinct(m);
    FieldsRoundTrip(m.fields);
  }

  lemma PackableIsDistinct(m: Message)
    requires Packable(m)
    ensures Distinct(m.fields)
  {
  }

  lemma SplitText(d: Address, s: Address, p: Bytes, id: Digest, d': Address, s': Address, p': Bytes, id': Digest)
    requires d + s + p + id == d' + s' + p' + id'
    ensures d == d' && s == s' && p == p' && id == id'
  {
    var t, t' := d + s + p + id, d' + s' + p' + id';
    assert d == t[..16] && s == t[16..32] && p == t[32..|t| - 32] && id == t[|t| - 32..];
    assert d' == t'[..16] && s' == t'[16..32] && p' == t'[32..|t'| - 32] && id' == t'[|t'| - 32..];
  }
}

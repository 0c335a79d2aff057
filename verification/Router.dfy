/** Sending, receiving and reply tickets of an LXMF router (lxmf/src/router.rs). Each handler is
    one step that reads the clock once. */
module Router {
  import opened Octets
  import opened Crypto
  import opened Message
  import Fields
  import Msgpack
  import Stamper
  import L = LXMessage
  import U = Upload

  const FIELD_TICKET: Byte := 0x0c

  /** IEEE 754 doubles, by bit pattern. */
  type Double = n: nat | n < 0x1_0000_0000_0000_0000

  const TICKET_EXPIRY: Double := 0x413b_af80_0000_0000
  const TICKET_RENEW: Double := 0x4132_7500_0000_0000
  const TICKET_INTERVAL: Double := 0x40f5_1800_0000_0000

  /** Double arithmetic, of which nothing need be known. */
  datatype Floats = Floats(
    less: (Double, Double) -> bool,
    plus: (Double, Double) -> Double,
    minus: (Double, Double) -> Double)

  datatype Issued = Issued(expires: Double, ticket: Ticket)

  datatype State = State(
    address: Option<Address>,
    stampCost: Option<Byte>,
    enforceStamps: bool,
    inbound: map<Address, seq<Issued>>,
    outbound: map<Address, Issued>,
    lastDeliveries: map<Address, Double>,
    ignored: set<Address>,
    delivered: set<Digest>)

  // ---- Tickets --------------------------------------------------------------------------------

  function IssuedTo(s: State, destination: Address): seq<Issued> {
    if destination in s.inbound then s.inbound[destination] else []
  }

  predicate Recent(f: Floats, s: State, destination: Address, now: Double) {
    destination in s.lastDeliveries && f.less(f.minus(now, s.lastDeliveries[destination]), TICKET_INTERVAL)
  }

  /** The first issued ticket with enough validity left. */
  function Reusable(f: Floats, issued: seq<Issued>, now: Double): Option<Issued> {
    if issued == [] then None
    else if f.less(TICKET_RENEW, f.minus(issued[0].expires, now)) then Some(issued[0])
    else Reusable(f, issued[1..], now)
  }

  function Fresh(f: Floats, now: Double, drawn: Ticket): Issued {
    Issued(f.plus(now, TICKET_EXPIRY), drawn)
  }

  /** What `generate_ticket` returns; `drawn` is what the random source yields. */
  function GeneratedTicket(f: Floats, s: State, destination: Address, now: Double, drawn: Ticket): Option<Issued> {
    if Recent(f, s, destination, now) then None
    else
      match Reusable(f, IssuedTo(s, destination), now)
      case Some(issued) => Some(issued)
      case None => Some(Fresh(f, now, drawn))
  }

  function AfterGenerate(f: Floats, s: State, destination: Address, now: Double, drawn: Ticket): State {
    if Recent(f, s, destination, now) || Reusable(f, IssuedTo(s, destination), now).Some? then s
    else s.(inbound := s.inbound[destination := IssuedTo(s, destination) + [Fresh(f, now, drawn)]])
  }

  function OutboundTicket(f: Floats, s: State, destination: Address, now: Double): Option<Ticket> {
    if destination in s.outbound && f.less(now, s.outbound[destination].expires)
    then Some(s.outbound[destination].ticket) else None
  }

  predicate Live(f: Floats, issued: Issued, now: Double) {
    f.less(now, issued.expires)
  }

  function Unexpired(f: Floats, issued: seq<Issued>, now: Double): seq<Ticket> {
    if issued == [] then []
    else (if Live(f, issued[0], now) then [issued[0].ticket] else []) + Unexpired(f, issued[1..], now)
  }

  lemma {:induction false} ReusableIsIssued(f: Floats, issued: seq<Issued>, now: Double)
    ensures Reusable(f, issued, now).Some? ==> Reusable(f, issued, now).value in issued
  {
    if issued != [] {
      ReusableIsIssued(f, issued[1..], now);
    }
  }

  /** Every ticket handed out is on record for its destination, and no record is ever lost. */
  lemma GeneratedIsIssued(f: Floats, s: State, destination: Address, now: Double, drawn: Ticket)
    ensures var r := GeneratedTicket(f, s, destination, now, drawn);
            var after := AfterGenerate(f, s, destination, now, drawn);
            && (r.Some? ==> r.value in IssuedTo(after, destination))
            && (forall other: Address :: IsPrefix(IssuedTo(s, other), IssuedTo(after, other)))
  {
    ReusableIsIssued(f, IssuedTo(s, destination), now);
  }

  /** A recorded ticket is valid for more than two weeks yet. */
  predicate LongLived(f: Floats, issued: Issued, now: Double) {
    f.less(TICKET_RENEW, f.minus(issued.expires, now))
  }

  lemma {:induction false} ReusableIsFirst(f: Floats, issued: seq<Issued>, now: Double)
    ensures var r := Reusable(f, issued, now);
            && (r.None? <==> forall k :: 0 <= k < |issued| ==> !LongLived(f, issued[k], now))
            && (r.Some? ==> exists k :: 0 <= k < |issued| && r == Some(issued[k]) && LongLived(f, issued[k], now)
                                        && forall j :: 0 <= j < k ==> !LongLived(f, issued[j], now))
  {
    hide LongLived;
    if issued != [] {
      ReusableIsFirst(f, issued[1..], now);
      assert LongLived(f, issued[0], now) <==> f.less(TICKET_RENEW, f.minus(issued[0].expires, now)) by {
        LongLivedIs(f, issued[0], now);
      }
      assert forall k :: 0 < k < |issued| ==> issued[k] == issued[1..][k - 1];
      if !LongLived(f, issued[0], now) && Reusable(f, issued[1..], now).Some? {
        var k :| 0 <= k < |issued[1..]| && Reusable(f, issued[1..], now) == Some(issued[1..][k])
          && LongLived(f, issued[1..][k], now) && forall j :: 0 <= j < k ==> !LongLived(f, issued[1..][j], now);
        assert issued[k + 1] == issued[1..][k];
      }
    }
  }

  lemma LongLivedIs(f: Floats, issued: Issued, now: Double)
    ensures LongLived(f, issued, now) <==> f.less(TICKET_RENEW, f.minus(issued.expires, now))
  {
  }

  /** Exactly which ticket is handed out: none within a day of the last that went out to the
      destination; else the first recorded one that is long-lived, the record unchanged; else a new
      one, valid for three weeks from now, put at the end of the record. */
  lemma TicketHandedOutIs(f: Floats, s: State, destination: Address, now: Double, drawn: Ticket)
    ensures var r := GeneratedTicket(f, s, destination, now, drawn);
            var after := AfterGenerate(f, s, destination, now, drawn);
            var recent := destination in s.lastDeliveries
              && f.less(f.minus(now, s.lastDeliveries[destination]), TICKET_INTERVAL);
            var issued := IssuedTo(s, destination);
            && (r.None? <==> recent)
            && (recent || (exists k :: 0 <= k < |issued| && LongLived(f, issued[k], now)) ==> after == s)
            && (!recent && (exists k :: 0 <= k < |issued| && LongLived(f, issued[k], now)) ==>
                  exists k :: 0 <= k < |issued| && r == Some(issued[k]) && LongLived(f, issued[k], now)
                              && forall j :: 0 <= j < k ==> !LongLived(f, issued[j], now))
            && (!recent && (forall k :: 0 <= k < |issued| ==> !LongLived(f, issued[k], now)) ==>
                  && r == Some(Issued(f.plus(now, TICKET_EXPIRY), drawn))
                  && after == s.(inbound := s.inbound[destination := issued + [r.value]]))
  {
    hide LongLived, Reusable;
    ReusableIsFirst(f, IssuedTo(s, destination), now);
  }

  /** A send that carries a ticket keeps the next one back for a day. */
  lemma TicketsArePaced(f: Floats, s: State, sent: Message, at: Double, drawn: Ticket, now: Double, next: Ticket)
    requires Fields.Get(sent.fields, FIELD_TICKET).Some? && f.less(f.minus(now, at), TICKET_INTERVAL)
    ensures var after := AfterSend(f, s, sent, at, true, drawn);
            GeneratedTicket(f, after, sent.destinationHash, now, next) == None
  {
    hide Reusable, Fields.Get;
  }

  lemma {:induction false} UnexpiredHasAll(f: Floats, issued: seq<Issued>, now: Double, one: Issued)
    requires one in issued && f.less(now, one.expires)
    ensures one.ticket in Unexpired(f, issued, now)
  {
    if issued[0] != one {
      UnexpiredHasAll(f, issued[1..], now, one);
    }
  }

  // ---- Sending --------------------------------------------------------------------------------

  function TicketField(issued: Issued): Msgpack.Value {
    Msgpack.Array([Msgpack.F64(issued.expires), Msgpack.Bin(issued.ticket)])
  }

  /** The cost the destination announced, unless the message has one. */
  function Costed(m: Message, announcedCost: Option<Byte>): (r: Message)
    ensures r == m.(stampCost := r.stampCost)
  {
    if m.stampCost.None? then m.(stampCost := announcedCost) else m
  }

  /** With a ticket to stamp with, the stamp is not put off. */
  function Ticketed(m: Message, ticket: Option<Ticket>): (r: Message)
    ensures r == m.(outboundTicket := r.outboundTicket, deferStamp := r.deferStamp)
  {
    if ticket.Some? then m.(outboundTicket := ticket, deferStamp := false) else m
  }

  /** The message as `send` prepares it for packing. */
  function Prepared(f: Floats, s: State, m: Message, now: Double, announcedCost: Option<Byte>, includeTicket: bool,
                    drawn: Ticket): Message
  {
    var ticketed := Ticketed(Costed(m, announcedCost), OutboundTicket(f, s, m.destinationHash, now));
    var issued := if includeTicket then GeneratedTicket(f, s, m.destinationHash, now, drawn) else None;
    if issued.Some? then ticketed.(fields := Fields.Inserted(ticketed.fields, FIELD_TICKET, TicketField(issued.value)))
    else ticketed
  }

  /** What `send` makes of a message: packed now, unless it was packed before. */
  function SentMessage(c: Suite, f: Floats, s: State, m: Message, key: Secret, now: Double,
                       announcedCost: Option<Byte>, includeTicket: bool, drawn: Ticket,
                       draws: seq<Stamper.Stamp>): Message
  {
    var prepared := Prepared(f, s, m, now, announcedCost, includeTicket, drawn);
    if prepared.packed.None? then Settled(PackCore(c, prepared, key, now, draws)) else prepared
  }

  /** The same with the fields a message for a propagation node has besides. */
  function SentOutgoing(c: Suite, f: Floats, s: State, o: U.Outgoing, key: Secret, now: Double,
                        announcedCost: Option<Byte>, includeTicket: bool, drawn: Ticket, h: U.Chance): U.Outgoing
  {
    var prepared := o.(m := Prepared(f, s, o.m, now, announcedCost, includeTicket, drawn));
    if o.m.packed.Some? then prepared
    else if o.m.desiredMethod == Some(PROPAGATED) then U.PackPropagation(c, prepared, key, h)
    else prepared.(m := Settled(PackCore(c, prepared.m, key, h.now, h.draws)), propagationPacked := None)
  }

  /** How packing ends, for a message that was not packed before. */
  function SendError(before: U.Outgoing, after: U.Outgoing): Option<Error> {
    if before.m.packed.Some? then None
    else if before.m.desiredMethod == Some(PROPAGATED) then U.PropagationError(before, after)
    else PackError(after.m)
  }

  /** The records after a `send` whose packing failed: a ticket may have been issued. */
  function AfterPrepare(f: Floats, s: State, m: Message, now: Double, includeTicket: bool, drawn: Ticket): State {
    if includeTicket then AfterGenerate(f, s, m.destinationHash, now, drawn) else s
  }

  function AfterSend(f: Floats, s: State, sent: Message, now: Double, includeTicket: bool, drawn: Ticket): State {
    if !includeTicket then s
    else
      var generated := AfterGenerate(f, s, sent.destinationHash, now, drawn);
      if Fields.Get(sent.fields, FIELD_TICKET).Some?
      then generated.(lastDeliveries := generated.lastDeliveries[sent.destinationHash := now])
      else generated
  }

  // ---- Receiving ------------------------------------------------------------------------------

  datatype Outcome =
    | NotHere
    | Malformed(error: Error)
    | BadStamp(message: Message)
    | IgnoredSource(message: Message)
    | Duplicate(message: Message)
    | Received(message: Message)

  /** The ticket a received message carries, if it is well-formed and unexpired. */
  function CarriedTicket(f: Floats, fields: seq<Fields.Field>, now: Double): Option<Issued> {
    match Fields.Get(fields, FIELD_TICKET)
    case Some(Array(items)) =>
      if |items| > 1 && items[0].F64? && items[1].Bin? && items[0].bits < Msgpack.TWO_64 && |items[1].data| == 16
         && f.less(now, items[0].bits)
      then Some(Issued(items[0].bits, items[1].data)) else None
    case _ => None
  }

  /** Tickets are remembered from verified sources only, before the stamp is looked at. */
  function AfterRemember(f: Floats, s: State, m: Message, now: Double): State {
    if m.signatureValidated && CarriedTicket(f, m.fields, now).Some?
    then s.(outbound := s.outbound[m.sourceHash := CarriedTicket(f, m.fields, now).value]) else s
  }

  /** The message after stamp enforcement, and whether the stamp was good. */
  function Checked(c: Suite, f: Floats, s: State, m: Message, now: Double): (r: Message)
    ensures r == m.(stampValid := r.stampValid, stampValue := r.stampValue)
  {
    if s.stampCost.None? then m
    else
      var worth := StampWorth(c, m, s.stampCost, Unexpired(f, IssuedTo(s, m.sourceHash), now));
      m.(stampValid := worth.Some?, stampValue := if worth.Some? then worth else m.stampValue)
  }

  function DeliveryOutcome(c: Suite, f: Floats, s: State, bytes: Bytes, resolver: Resolver, now: Double,
                           noEnforcement: bool, allowDuplicate: bool): Outcome
  {
    if s.address.None? then NotHere
    else
      match UnpackMessage(c, bytes, resolver)
      case Err(error) => Malformed(error)
      case Ok(m) =>
        if m.destinationHash != s.address.value then NotHere
        else
          var checked := Checked(c, f, AfterRemember(f, s, m, now), m, now);
          if s.stampCost.Some? && !checked.stampValid && !noEnforcement && s.enforceStamps then BadStamp(checked)
          else if m.sourceHash in s.ignored then IgnoredSource(checked)
          else if !allowDuplicate && m.messageId.value in s.delivered then Duplicate(checked)
          else Received(checked)
  }

  function AfterDelivery(c: Suite, f: Floats, s: State, bytes: Bytes, resolver: Resolver, now: Double,
                         noEnforcement: bool, allowDuplicate: bool): State
  {
    match UnpackMessage(c, bytes, resolver)
    case Err(_) => s
    case Ok(m) =>
      if s.address != Some(m.destinationHash) then s
      else
        var remembered := AfterRemember(f, s, m, now);
        if DeliveryOutcome(c, f, s, bytes, resolver, now, noEnforcement, allowDuplicate).Received?
        then remembered.(delivered := s.delivered + {m.messageId.value}) else remembered
  }

  // ---- The router object ----------------------------------------------------------------------

  class Router {
    var s: State

    constructor (s: State)
      ensures this.s == s
    {
      this.s := s;
    }

    method GenerateTicket(f: Floats, destination: Address, now: Double, drawn: Ticket) returns (r: Option<Issued>)
      modifies this
      ensures r == GeneratedTicket(f, old(s), destination, now, drawn)
      ensures s == AfterGenerate(f, old(s), destination, now, drawn)
    {
      if Recent(f, s, destination, now) {
        return None;
      }
      var issued := IssuedTo(s, destination);
      for k := 0 to |issued|
        invariant s == old(s)
        invariant Reusable(f, issued, now) == Reusable(f, issued[k..], now)
      {
        assert issued[k..][1..] == issued[k + 1..];
        if f.less(TICKET_RENEW, f.minus(issued[k].expires, now)) {
          return Some(issued[k]);
        }
      }
      var one := Fresh(f, now, drawn);
      s := s.(inbound := s.inbound[destination := issued + [one]]);
      return Some(one);
    }

    method InboundTickets(f: Floats, destination: Address, now: Double) returns (tickets: seq<Ticket>)
      ensures tickets == Unexpired(f, IssuedTo(s, destination), now)
    {
      hide Live;
      var issued := IssuedTo(s, destination);
      tickets := [];
      assert issued[0..] == issued;
      for k := 0 to |issued|
        invariant tickets + Unexpired(f, issued[k..], now) == Unexpired(f, issued, now)
      {
        assert issued[k..][1..] == issued[k + 1..];
        if Live(f, issued[k], now) {
          tickets := tickets + [issued[k].ticket];
        }
      }
    }

    /** The first half of `send`: stamp cost, outbound ticket and the ticket to include. */
    method Prepare(f: Floats, message: L.LXMessage, now: Double, announcedCost: Option<Byte>, includeTicket: bool,
                   drawn: Ticket)
      modifies this, message`m
      ensures message.m == Prepared(f, old(s), old(message.m), now, announcedCost, includeTicket, drawn)
      ensures s == if includeTicket then AfterGenerate(f, old(s), message.m.destinationHash, now, drawn) else old(s)
    {
      hide GeneratedTicket, AfterGenerate, OutboundTicket, TicketField, Fields.Inserted;
      if message.m.stampCost.None? {
        message.m := message.m.(stampCost := announcedCost);
      }
      var ticket := OutboundTicket(f, s, message.m.destinationHash, now);
      if ticket.Some? {
        message.m := message.m.(outboundTicket := ticket, deferStamp := false);
      }
      if includeTicket {
        var issued := GenerateTicket(f, message.m.destinationHash, now, drawn);
        if issued.Some? {
          message.m := message.m.(fields := Fields.Inserted(message.m.fields, FIELD_TICKET, TicketField(issued.value)));
        }
      }
    }

    method Send(c: Suite, f: Floats, message: L.LXMessage, key: Secret, now: Double, announcedCost: Option<Byte>,
                includeTicket: bool, drawn: Ticket, nodeSet: bool, h: U.Chance)
      returns (error: Option<Error>)
      modifies this, message
      ensures old(message.m).desiredMethod == Some(PROPAGATED) && !nodeSet ==>
                error == Some(UnsupportedMethod) && message.Value() == old(message.Value()) && s == old(s)
      ensures old(message.m).desiredMethod != Some(PROPAGATED) || nodeSet ==>
                && message.Value() ==
                   SentOutgoing(c, f, old(s), old(message.Value()), key, now, announcedCost, includeTicket, drawn, h)
                && error == SendError(old(message.Value()), message.Value())
                && s == if error.Some? then AfterPrepare(f, old(s), message.m, now, includeTicket, drawn)
                        else AfterSend(f, old(s), message.m, now, includeTicket, drawn)
    {
      hide PackCore, Prepared, AfterGenerate, U.PackPropagation;
      if message.m.desiredMethod == Some(PROPAGATED) && !nodeSet {
        return Some(UnsupportedMethod);
      }
      PreparedKeepsMethod(f, s, message.m, now, announcedCost, includeTicket, drawn);
      Prepare(f, message, now, announcedCost, includeTicket, drawn);
      error := None;
      if message.m.packed.None? {
        if message.m.desiredMethod == Some(PROPAGATED) {
          PackPropagationKeepsAddress(c, message.Value(), key, h);
          error := message.PackPropagation(c, key, h);
        } else {
          PackCoreKeepsAddress(c, message.m, key, h.now, h.draws);
          error := message.Pack(c, key, h.now, h.draws);
        }
      }
      if error.Some? {
        return;
      }
      if includeTicket && Fields.Get(message.m.fields, FIELD_TICKET).Some? {
        s := s.(lastDeliveries := s.lastDeliveries[message.m.destinationHash := now]);
      }
    }

    method Deliver(c: Suite, f: Floats, bytes: Bytes, resolver: Resolver, now: Double, noEnforcement: bool,
                   allowDuplicate: bool) returns (outcome: Outcome)
      modifies this
      ensures outcome == DeliveryOutcome(c, f, old(s), bytes, resolver, now, noEnforcement, allowDuplicate)
      ensures s == AfterDelivery(c, f, old(s), bytes, resolver, now, noEnforcement, allowDuplicate)
    {
      hide UnpackMessage, Checked, CarriedTicket;
      if s.address.None? {
        return NotHere;
      }
      var unpacked := UnpackMessage(c, bytes, resolver);
      if unpacked.Err? {
        return Malformed(unpacked.error);
      }
      var m := unpacked.value;
      if m.destinationHash != s.address.value {
        return NotHere;
      }
      s := AfterRemember(f, s, m, now);
      m := Checked(c, f, s, m, now);
      if s.stampCost.Some? && !m.stampValid && !noEnforcement && s.enforceStamps {
        return BadStamp(m);
      }
      if m.sourceHash in s.ignored {
        return IgnoredSource(m);
      }
      if !allowDuplicate && m.messageId.value in s.delivered {
        return Duplicate(m);
      }
      s := s.(delivered := s.delivered + {m.messageId.value});
      return Received(m);
    }
  }

  lemma PreparedKeepsMethod(f: Floats, s: State, m: Message, now: Double, announcedCost: Option<Byte>,
                            includeTicket: bool, drawn: Ticket)
    ensures var p := Prepared(f, s, m, now, announcedCost, includeTicket, drawn);
            p.desiredMethod == m.desiredMethod && p.packed == m.packed && p.destinationHash == m.destinationHash
  {
    hide GeneratedTicket, OutboundTicket, TicketField, Fields.Inserted;
  }

  /** Packing for a propagation node packs the same message. */
  lemma SentOutgoingIsSent(c: Suite, f: Floats, s: State, o: U.Outgoing, key: Secret, now: Double,
                           announcedCost: Option<Byte>, includeTicket: bool, drawn: Ticket, h: U.Chance)
    requires h.now == now
    ensures SentOutgoing(c, f, s, o, key, now, announcedCost, includeTicket, drawn, h).m ==
            SentMessage(c, f, s, o.m, key, now, announcedCost, includeTicket, drawn, h.draws)
  {
    hide PackCore, Prepared, U.Container, U.FormOf;
    PreparedKeepsMethod(f, s, o.m, now, announcedCost, includeTicket, drawn);
    var prepared := Prepared(f, s, o.m, now, announcedCost, includeTicket, drawn);
    PackCoreKeepsMethod(c, prepared, key, now, h.draws);
    assert o.m.desiredMethod == Some(PROPAGATED) ==> prepared.(desiredMethod := Some(PROPAGATED)) == prepared;
  }

  /** A `send` is one of the things an application can do with a message. */
  lemma SendIsCalls(c: Suite, f: Floats, s: State, o: U.Outgoing, key: Secret, now: Double,
                    announcedCost: Option<Byte>, includeTicket: bool, drawn: Ticket, h: U.Chance)
    returns (calls: seq<U.Call>)
    ensures U.Run(c, o, calls) == SentOutgoing(c, f, s, o, key, now, announcedCost, includeTicket, drawn, h)
  {
    hide PackCore, Prepared, U.PackPropagation;
    PreparedKeepsMethod(f, s, o.m, now, announcedCost, includeTicket, drawn);
    var edit := U.Edit(Prepared(f, s, o.m, now, announcedCost, includeTicket, drawn));
    var pack := if o.m.desiredMethod == Some(PROPAGATED) then U.PackForUpload(key, h) else U.Pack(key, h);
    calls := if o.m.packed.Some? then [edit] else [edit, pack];
    var edited := U.Step(c, o, edit);
    assert [edit][1..] == [] && [pack][1..] == [] && [edit, pack][1..] == [pack];
    assert U.Run(c, edited, []) == edited && U.Run(c, U.Step(c, edited, pack), []) == U.Step(c, edited, pack);
    assert U.Run(c, edited, [pack]) == U.Step(c, edited, pack);
  }

  /** A message that was not packed goes out by packet exactly if that was asked for and all of it but
      the destination fits the 391 bytes of one; it goes over a link if that was asked for, or
      nothing, or if it does not fit; and packing fails exactly if anything else was asked for. */
  lemma MethodChosen(c: Suite, m: Message, key: Secret, now: nat, draws: seq<Stamper.Stamp>)
    ensures var sent := Settled(PackCore(c, m, key, now, draws));
            && sent.packed.Some?
            && var fits := |sent.packed.value| - DESTINATION_LENGTH <= 383 + 8;
               && (sent.desiredMethod == Some(OPPORTUNISTIC) <==> m.desiredMethod == Some(OPPORTUNISTIC) && fits)
               && (sent.desiredMethod == Some(DIRECT) <==>
                     || m.desiredMethod == Some(DIRECT) || m.desiredMethod == None
                     || (m.desiredMethod == Some(OPPORTUNISTIC) && !fits))
               && (PackError(sent) == None <==>
                     || m.desiredMethod == None || m.desiredMethod == Some(OPPORTUNISTIC)
                     || m.desiredMethod == Some(DIRECT))
               && (PackError(sent) != None ==> PackError(sent) == Some(UnsupportedMethod))
  {
    hide PackPayload, GetStamp, HashedPart;
  }

  /** Exactly when `send`, not refused, fails: not for a message packed before; for one meant for a
      propagation node if its destination is unknown or cannot be encrypted for; for any other if the
      method is none it knows. */
  lemma SendFailsIff(c: Suite, f: Floats, s: State, o: U.Outgoing, key: Secret, now: Double,
                     announcedCost: Option<Byte>, includeTicket: bool, drawn: Ticket, h: U.Chance)
    ensures var after := SentOutgoing(c, f, s, o, key, now, announcedCost, includeTicket, drawn, h);
            var error := SendError(o, after);
            if o.m.packed.Some? then error == None
            else if o.m.desiredMethod == Some(PROPAGATED) then
              && (error == None <==> after.propagationPacked.Some?)
              && (error == Some(PathUnknown) <==> o.m.destinationIdentity.None?)
              && (error == Some(CannotEncrypt) <==>
                    o.m.destinationIdentity.Some? && U.FormOf(c, after.m, h.random).None?)
            else
              && (error == None <==>
                    || o.m.desiredMethod == None || o.m.desiredMethod == Some(OPPORTUNISTIC)
                    || o.m.desiredMethod == Some(DIRECT))
              && (error != None ==> error == Some(UnsupportedMethod))
  {
    hide PackCore, Prepared, U.Container, U.FormOf, Settled, PackError;
    PreparedKeepsMethod(f, s, o.m, now, announcedCost, includeTicket, drawn);
    var prepared := Prepared(f, s, o.m, now, announcedCost, includeTicket, drawn);
    PreparedKeepsIdentity(f, s, o.m, now, announcedCost, includeTicket, drawn);
    MethodChosen(c, prepared, key, h.now, h.draws);
    PackCoreSets(c, prepared.(desiredMethod := Some(PROPAGATED)), key, h.now, h.draws);
    FormNeedsIdentity(c, PackCore(c, prepared.(desiredMethod := Some(PROPAGATED)), key, h.now, h.draws), h.random);
  }

  lemma PreparedKeepsIdentity(f: Floats, s: State, m: Message, now: Double, announcedCost: Option<Byte>,
                              includeTicket: bool, drawn: Ticket)
    ensures Prepared(f, s, m, now, announcedCost, includeTicket, drawn).destinationIdentity == m.destinationIdentity
  {
    hide GeneratedTicket, OutboundTicket, TicketField, Fields.Inserted;
  }

  lemma FormNeedsIdentity(c: Suite, m: Message, random: Bytes)
    ensures U.FormOf(c, m, random).Some? ==> m.destinationIdentity.Some?
  {
  }

  lemma PackCoreKeepsMethod(c: Suite, m: Message, key: Secret, now: nat, draws: seq<Stamper.Stamp>)
    ensures PackCore(c, m, key, now, draws).desiredMethod == m.desiredMethod
  {
    hide PackPayload, GetStamp;
  }

  lemma PackPropagationKeepsAddress(c: Suite, o: U.Outgoing, key: Secret, h: U.Chance)
    ensures U.PackPropagation(c, o, key, h).m.destinationHash == o.m.destinationHash
  {
    hide PackCore, U.Container, U.FormOf;
    PackCoreSets(c, o.m.(desiredMethod := Some(PROPAGATED)), key, h.now, h.draws);
  }

  lemma PackCoreKeepsAddress(c: Suite, m: Message, key: Secret, now: nat, draws: seq<Stamper.Stamp>)
    ensures var sent := PackCore(c, m, key, now, draws);
            sent.destinationHash == m.destinationHash && sent.fields == m.fields
  {
    PackCoreSets(c, m, key, now, draws);
  }

  // ---- Nothing is received twice --------------------------------------------------------------

  datatype Arrival = Arrival(bytes: Bytes, resolver: Resolver, now: Double, noEnforcement: bool)

  /** The state after the first arrivals, none of them allowed to repeat. */
  ghost function AfterArrivals(c: Suite, f: Floats, s: State, arrivals: seq<Arrival>): State {
    if arrivals == [] then s
    else
      var last := arrivals[|arrivals| - 1];
      var before := AfterArrivals(c, f, s, arrivals[..|arrivals| - 1]);
      AfterDelivery(c, f, before, last.bytes, last.resolver, last.now, last.noEnforcement, false)
  }

  ghost function OutcomeOf(c: Suite, f: Floats, s: State, arrivals: seq<Arrival>, k: nat): Outcome
    requires k < |arrivals|
  {
    var e := arrivals[k];
    DeliveryOutcome(c, f, AfterArrivals(c, f, s, arrivals[..k]), e.bytes, e.resolver, e.now, e.noEnforcement, false)
  }

  lemma DeliveryRecords(c: Suite, f: Floats, s: State, bytes: Bytes, resolver: Resolver, now: Double,
                        noEnforcement: bool)
    ensures var outcome := DeliveryOutcome(c, f, s, bytes, resolver, now, noEnforcement, false);
            var after := AfterDelivery(c, f, s, bytes, resolver, now, noEnforcement, false);
            && s.delivered <= after.delivered
            && (outcome.Received? ==> outcome.message.messageId.Some? && outcome.message.messageId.value !in s.delivered
                                      && outcome.message.messageId.value in after.delivered)
  {
    hide UnpackMessage, Checked, CarriedTicket;
  }

  lemma {:induction false} RecordsGrow(c: Suite, f: Floats, s: State, arrivals: seq<Arrival>, k: nat)
    requires k <= |arrivals|
    ensures AfterArrivals(c, f, s, arrivals[..k]).delivered <= AfterArrivals(c, f, s, arrivals).delivered
    decreases |arrivals|
  {
    hide AfterDelivery, DeliveryOutcome;
    if k < |arrivals| {
      var n, last := |arrivals| - 1, arrivals[|arrivals| - 1];
      RecordsGrow(c, f, s, arrivals[..n], k);
      assert arrivals[..n][..k] == arrivals[..k];
      DeliveryRecords(c, f, AfterArrivals(c, f, s, arrivals[..n]), last.bytes, last.resolver, last.now,
        last.noEnforcement);
    } else {
      assert arrivals[..k] == arrivals;
    }
  }

  /** However often and in whatever encoding messages arrive, no message id is received twice. */
  lemma NoIdReceivedTwice(c: Suite, f: Floats, s: State, arrivals: seq<Arrival>, i: nat, j: nat)
    requires i < j < |arrivals|
    requires OutcomeOf(c, f, s, arrivals, i).Received? && OutcomeOf(c, f, s, arrivals, j).Received?
    ensures OutcomeOf(c, f, s, arrivals, i).message.messageId != OutcomeOf(c, f, s, arrivals, j).message.messageId
  {
    hide AfterDelivery, DeliveryOutcome;
    var first, second := arrivals[i], arrivals[j];
    DeliveryRecords(c, f, AfterArrivals(c, f, s, arrivals[..i]), first.bytes, first.resolver, first.now,
      first.noEnforcement);
    DeliveryRecords(c, f, AfterArrivals(c, f, s, arrivals[..j]), second.bytes, second.resolver, second.now,
      second.noEnforcement);
    assert arrivals[..i + 1][..i] == arrivals[..i] && arrivals[..j][..i + 1] == arrivals[..i + 1];
    RecordsGrow(c, f, s, arrivals[..j], i + 1);
  }
}

/** Reply tickets across two routers: the issuer A, the holder B and a network that may lose,
    repeat, reorder, re-encode and invent messages, but not forge A's signature. */
module Tickets {
  import opened Octets
  import opened Crypto
  import opened Message
  import opened Router
  import Fields
  import Msgpack
  import Stamper

  /** A router's fixed side: its address and signing key. */
  datatype Party = Party(address: Address, key: Secret)

  /** `signed` holds every message A packed, as it was when its signature was made. */
  datatype World = World(a: State, b: State, signed: set<Message>)

  datatype Event =
    | IssuerSends(m: Message, now: Double, cost: Option<Byte>, includeTicket: bool, drawn: Ticket,
                  draws: seq<Stamper.Stamp>, fails: bool)
    | HolderSends(m: Message, key: Secret, now: Double, cost: Option<Byte>, includeTicket: bool, drawn: Ticket,
                  draws: seq<Stamper.Stamp>, fails: bool)
    | IssuerReceives(bytes: Bytes, resolver: Resolver, now: Double, noEnforcement: bool, allowDuplicate: bool)
    | HolderReceives(bytes: Bytes, resolver: Resolver, now: Double, noEnforcement: bool, allowDuplicate: bool)
    | IssuerRequires(cost: Option<Byte>, enforce: bool)
    | HolderRequires(cost: Option<Byte>, enforce: bool)

  function Start(a: State, b: State): World {
    World(a.(inbound := map[], outbound := map[]), b.(inbound := map[], outbound := map[]), {})
  }

  /** A message not packed yet, with no ticket field of its application's own making. */
  ghost predicate Unsent(m: Message) {
    Packable(m) && m.packed.None? && Fields.Get(m.fields, FIELD_TICKET).None?
  }

  /** A router's records after `send`, which `fails` if the message cannot be encrypted or its method
      is not supported. */
  function Recorded(f: Floats, s: State, sent: Message, now: Double, includeTicket: bool, drawn: Ticket,
                    fails: bool): State
  {
    if fails then AfterPrepare(f, s, sent, now, includeTicket, drawn)
    else AfterSend(f, s, sent, now, includeTicket, drawn)
  }

  /** A signs what it packs; sending a packed message again signs nothing, but touches the records.
      What A does not send is a message to be packed whose ticket field is not its own. */
  ghost function Step(c: Suite, f: Floats, a: Party, w: World, e: Event): World {
    match e
    case IssuerSends(m, now, cost, includeTicket, drawn, draws, fails) =>
      if m.packed.None? && !Unsent(m) then w
      else
        var sent := SentMessage(c, f, w.a, m, a.key, now, cost, includeTicket, drawn, draws);
        w.(a := Recorded(f, w.a, sent, now, includeTicket, drawn, fails),
           signed := if m.packed.None? then w.signed + {sent} else w.signed)
    case HolderSends(m, key, now, cost, includeTicket, drawn, draws, fails) =>
      var sent := SentMessage(c, f, w.b, m, key, now, cost, includeTicket, drawn, draws);
      w.(b := Recorded(f, w.b, sent, now, includeTicket, drawn, fails))
    case IssuerReceives(bytes, resolver, now, noEnforcement, allowDuplicate) =>
      w.(a := AfterDelivery(c, f, w.a, bytes, resolver, now, noEnforcement, allowDuplicate))
    case HolderReceives(bytes, resolver, now, noEnforcement, allowDuplicate) =>
      w.(b := AfterDelivery(c, f, w.b, bytes, resolver, now, noEnforcement, allowDuplicate))
    case IssuerRequires(cost, enforce) => w.(a := w.a.(stampCost := cost, enforceStamps := enforce))
    case HolderRequires(cost, enforce) => w.(b := w.b.(stampCost := cost, enforceStamps := enforce))
  }

  /** Nobody but A makes signatures under A's key, and B knows A by no other key: a text B receives
      with a signature that verifies under A's key is one A signed. The stamp and the encoding are
      not covered by it. */
  ghost predicate Unforged(c: Suite, a: Party, w: World, e: Event) {
    e.HolderReceives? ==>
      var u := UnpackMessage(c, e.bytes, e.resolver);
      && (e.resolver(a.address).Some? ==> e.resolver(a.address).value == c.public(a.key))
      && (u.Ok? && u.value.packedPayload.Some? && u.value.signature.Some?
          && c.verify(c.public(a.key), CheckedText(u.value), u.value.signature.value) ==>
            exists m :: m in w.signed && m.timestamp.Some?
              && CheckedText(u.value) == SignedText(c, m, m.timestamp.value))
  }

  ghost function Run(c: Suite, f: Floats, a: Party, w: World, events: seq<Event>): World {
    if events == [] then w
    else Step(c, f, a, Run(c, f, a, w, events[..|events| - 1]), events[|events| - 1])
  }

  ghost predicate UnforgedRun(c: Suite, f: Floats, a: Party, w: World, events: seq<Event>) {
    events != [] ==>
      && UnforgedRun(c, f, a, w, events[..|events| - 1])
      && Unforged(c, a, Run(c, f, a, w, events[..|events| - 1]), events[|events| - 1])
  }

  // ---- The invariant --------------------------------------------------------------------------

  /** What a message signed by A says about tickets is on A's record for its destination. */
  ghost predicate Honest(a: State, m: Message) {
    && Packable(m) && m.timestamp.Some?
    && (Fields.Get(m.fields, FIELD_TICKET).Some? ==>
          exists issued :: issued in IssuedTo(a, m.destinationHash)
                           && Fields.Get(m.fields, FIELD_TICKET) == Some(TicketField(issued)))
  }

  /** Every ticket B holds from A is one A has on record for B. */
  ghost predicate Inv(a: Party, b: Party, w: World) {
    && w.a.address == Some(a.address) && w.b.address == Some(b.address)
    && (forall m :: m in w.signed ==> Honest(w.a, m))
    && (a.address in w.b.outbound ==> w.b.outbound[a.address] in IssuedTo(w.a, b.address))
  }

  /** A's record only grows. */
  ghost predicate Grows(s: State, after: State) {
    forall other: Address, issued :: issued in IssuedTo(s, other) ==> issued in IssuedTo(after, other)
  }

  lemma HonestStays(s: State, after: State, m: Message)
    requires Honest(s, m) && Grows(s, after)
    ensures Honest(after, m)
  {
    if Fields.Get(m.fields, FIELD_TICKET).Some? {
      var issued :| issued in IssuedTo(s, m.destinationHash)
        && Fields.Get(m.fields, FIELD_TICKET) == Some(TicketField(issued));
      assert issued in IssuedTo(after, m.destinationHash);
    }
  }

  lemma SendGrows(f: Floats, s: State, sent: Message, now: Double, includeTicket: bool, drawn: Ticket, fails: bool)
    ensures var after := Recorded(f, s, sent, now, includeTicket, drawn, fails);
            Grows(s, after) && after.outbound == s.outbound && after.address == s.address
  {
    hide Reusable, Recent;
  }

  lemma DeliveryKeepsRecord(c: Suite, f: Floats, s: State, bytes: Bytes, resolver: Resolver, now: Double,
                            noEnforcement: bool, allowDuplicate: bool)
    ensures var after := AfterDelivery(c, f, s, bytes, resolver, now, noEnforcement, allowDuplicate);
            after.inbound == s.inbound && after.address == s.address && Grows(s, after)
  {
    hide UnpackMessage, DeliveryOutcome, CarriedTicket;
  }

  lemma InsertedIsPackable(m: Message, id: Byte, value: Msgpack.Value)
    requires Packable(m) && Msgpack.WellFormed(value)
    ensures Packable(m.(fields := Fields.Inserted(m.fields, id, value)))
  {
    hide Msgpack.WellFormed, Fields.Dictionary, Fields.Ids;
    Fields.InsertedIsUpdate(m.fields, id, value);
  }

  lemma PackableIgnoresTickets(m: Message, other: Message)
    requires Packable(m)
    requires other == m.(stampCost := other.stampCost, outboundTicket := other.outboundTicket,
                         deferStamp := other.deferStamp)
    ensures Packable(other)
  {
  }

  /** What `send` puts into a message before packing it. */
  lemma PreparedKeepsText(f: Floats, s: State, m: Message, now: Double, cost: Option<Byte>, includeTicket: bool,
                          drawn: Ticket)
    ensures var p := Prepared(f, s, m, now, cost, includeTicket, drawn);
            var issued := if includeTicket then GeneratedTicket(f, s, m.destinationHash, now, drawn) else None;
            && p == m.(stampCost := p.stampCost, outboundTicket := p.outboundTicket, deferStamp := p.deferStamp,
                       fields := p.fields)
            && (issued.Some? ==> p.fields == Fields.Inserted(m.fields, FIELD_TICKET, TicketField(issued.value)))
            && (issued.None? ==> p.fields == m.fields)
  {
    hide GeneratedTicket, OutboundTicket, TicketField, Fields.Inserted, Costed, Ticketed;
  }

  lemma PreparedIsPackable(f: Floats, s: State, m: Message, now: Double, cost: Option<Byte>, includeTicket: bool,
                           drawn: Ticket)
    requires Packable(m)
    ensures Packable(Prepared(f, s, m, now, cost, includeTicket, drawn))
  {
    hide GeneratedTicket, Prepared, TicketField, Packable, Fields.Inserted;
    var p := Prepared(f, s, m, now, cost, includeTicket, drawn);
    PreparedKeepsText(f, s, m, now, cost, includeTicket, drawn);
    var issued := if includeTicket then GeneratedTicket(f, s, m.destinationHash, now, drawn) else None;
    if issued.Some? {
      TicketFieldIsWellFormed(issued.value);
      InsertedIsPackable(m, FIELD_TICKET, TicketField(issued.value));
    }
    PackableIgnoresTickets(m.(fields := p.fields), p);
  }

  lemma TicketFieldIsWellFormed(issued: Issued)
    ensures Msgpack.WellFormed(TicketField(issued))
  {
    assert Msgpack.WellFormed(Msgpack.F64(issued.expires)) && Msgpack.WellFormed(Msgpack.Bin(issued.ticket));
  }

  lemma PackCoreIsPackable(c: Suite, m: Message, key: Secret, now: Double, draws: seq<Stamper.Stamp>)
    requires Packable(m)
    ensures Packable(PackCore(c, m, key, now, draws))
  {
    hide PackPayload, GetStamp;
    GetStampIsShort(c, Identified(c, m, now), draws);
  }

  lemma SettledKeepsText(m: Message)
    ensures Settled(m) == m.(desiredMethod := Settled(m).desiredMethod)
    ensures Packable(m) ==> Packable(Settled(m))
  {
  }

  /** A message A packs carries a ticket only if A just put it there, and then it is on record. */
  lemma SentIsHonest(c: Suite, f: Floats, a: Party, s: State, m: Message, now: Double, cost: Option<Byte>,
                     includeTicket: bool, drawn: Ticket, draws: seq<Stamper.Stamp>, fails: bool)
    requires Unsent(m)
    ensures var sent := SentMessage(c, f, s, m, a.key, now, cost, includeTicket, drawn, draws);
            Honest(Recorded(f, s, sent, now, includeTicket, drawn, fails), sent)
  {
    hide PackCore, Packable, GeneratedTicket, AfterGenerate, Prepared, Fields.Get, Fields.Inserted;
    var prepared := Prepared(f, s, m, now, cost, includeTicket, drawn);
    PreparedKeepsText(f, s, m, now, cost, includeTicket, drawn);
    PreparedIsPackable(f, s, m, now, cost, includeTicket, drawn);
    PackCoreIsPackable(c, prepared, a.key, now, draws);
    PackCoreSets(c, prepared, a.key, now, draws);
    SettledKeepsText(PackCore(c, prepared, a.key, now, draws));
    hide Settled;
    var issued := if includeTicket then GeneratedTicket(f, s, m.destinationHash, now, drawn) else None;
    if issued.Some? {
      GeneratedIsIssued(f, s, m.destinationHash, now, drawn);
      Fields.InsertedGet(m.fields, FIELD_TICKET, TicketField(issued.value), FIELD_TICKET);
    }
  }

  /** The ticket B remembers from a message that verifies as A's is the one A put there for B. */
  lemma RememberedIsIssued(c: Suite, f: Floats, a: Party, b: Party, w: World, bytes: Bytes, resolver: Resolver,
                           now: Double, m: Message)
    requires UnpackMessage(c, bytes, resolver).Ok? && m in w.signed && Honest(w.a, m)
    requires var u := UnpackMessage(c, bytes, resolver).value;
             && u.packedPayload.Some? && CheckedText(u) == SignedText(c, m, m.timestamp.value)
             && u.destinationHash == b.address && CarriedTicket(f, u.fields, now).Some?
    ensures CarriedTicket(f, UnpackMessage(c, bytes, resolver).value.fields, now).value in IssuedTo(w.a, b.address)
  {
    hide UnpackMessage, Packable, SignedText, Fields.Get, HashedPart;
    PackableTimestamp(m);
    SignedTextFixesMessage(c, m, m.timestamp.value, bytes, resolver);
  }

  lemma PackableTimestamp(m: Message)
    requires Packable(m) && m.timestamp.Some?
    ensures m.timestamp.value < Msgpack.TWO_64
  {
  }

  /** Exactly when a delivery changes the tickets held: the message is for this router, its
      signature is validated and it carries an unexpired ticket. */
  lemma DeliveryRemembers(c: Suite, f: Floats, s: State, bytes: Bytes, resolver: Resolver, now: Double,
                          noEnforcement: bool, allowDuplicate: bool)
    ensures var u := UnpackMessage(c, bytes, resolver);
            AfterDelivery(c, f, s, bytes, resolver, now, noEnforcement, allowDuplicate).outbound ==
            if u.Ok? && s.address == Some(u.value.destinationHash) && u.value.signatureValidated
               && CarriedTicket(f, u.value.fields, now).Some?
            then s.outbound[u.value.sourceHash := CarriedTicket(f, u.value.fields, now).value]
            else s.outbound
  {
    hide UnpackMessage, DeliveryOutcome, CarriedTicket;
  }

  lemma HolderReceivesKeepsInv(c: Suite, f: Floats, a: Party, b: Party, w: World, e: Event)
    requires Inv(a, b, w) && Unforged(c, a, w, e) && e.HolderReceives?
    ensures Inv(a, b, Step(c, f, a, w, e))
  {
    hide UnpackMessage, AfterDelivery, CarriedTicket, Honest, CheckedText, SignedText;
    DeliveryRemembers(c, f, w.b, e.bytes, e.resolver, e.now, e.noEnforcement, e.allowDuplicate);
    DeliveryKeepsRecord(c, f, w.b, e.bytes, e.resolver, e.now, e.noEnforcement, e.allowDuplicate);
    var u := UnpackMessage(c, e.bytes, e.resolver);
    if u.Ok? && u.value.signatureValidated && u.value.sourceHash == a.address && u.value.destinationHash == b.address
       && CarriedTicket(f, u.value.fields, e.now).Some? {
      ValidatedMeansVerified(c, e.bytes, e.resolver);
      var m :| m in w.signed && m.timestamp.Some? && CheckedText(u.value) == SignedText(c, m, m.timestamp.value);
      RememberedIsIssued(c, f, a, b, w, e.bytes, e.resolver, e.now, m);
    }
  }

  lemma StepKeepsInv(c: Suite, f: Floats, a: Party, b: Party, w: World, e: Event)
    requires Inv(a, b, w) && Unforged(c, a, w, e)
    ensures Inv(a, b, Step(c, f, a, w, e)) && Grows(w.a, Step(c, f, a, w, e).a)
  {
    hide Honest, SentMessage, Recorded, AfterDelivery, Unsent;
    match e {
      case IssuerSends(m, now, cost, includeTicket, drawn, draws, fails) =>
        var sent := SentMessage(c, f, w.a, m, a.key, now, cost, includeTicket, drawn, draws);
        SendGrows(f, w.a, sent, now, includeTicket, drawn, fails);
        if Unsent(m) {
          SentIsHonest(c, f, a, w.a, m, now, cost, includeTicket, drawn, draws, fails);
        }
      case HolderSends(m, key, now, cost, includeTicket, drawn, draws, fails) =>
        var sent := SentMessage(c, f, w.b, m, key, now, cost, includeTicket, drawn, draws);
        SendGrows(f, w.b, sent, now, includeTicket, drawn, fails);
      case IssuerReceives(bytes, resolver, now, noEnforcement, allowDuplicate) =>
        DeliveryKeepsRecord(c, f, w.a, bytes, resolver, now, noEnforcement, allowDuplicate);
      case HolderReceives(_, _, _, _, _) => HolderReceivesKeepsInv(c, f, a, b, w, e);
      case _ =>
    }
    var after := Step(c, f, a, w, e);
    assert Grows(w.a, after.a);
    forall m | m in w.signed ensures Honest(after.a, m) {
      HonestStays(w.a, after.a, m);
    }
  }

  lemma {:induction false} RunKeepsInv(c: Suite, f: Floats, a: Party, b: Party, w: World, events: seq<Event>)
    requires Inv(a, b, w) && UnforgedRun(c, f, a, w, events)
    ensures Inv(a, b, Run(c, f, a, w, events)) && Grows(w.a, Run(c, f, a, w, events).a)
  {
    hide Inv, Step, Unforged;
    if events != [] {
      var n := |events| - 1;
      RunKeepsInv(c, f, a, b, w, events[..n]);
      StepKeepsInv(c, f, a, b, Run(c, f, a, w, events[..n]), events[n]);
    }
  }

  /** The other half: a ticket A puts into a message is held by its destination as soon as the
      message arrives there unexpired and verifies. */
  lemma IssuedTicketIsHeld(c: Suite, f: Floats, a: Party, s: State, m: Message, now: Double, cost: Option<Byte>,
                           drawn: Ticket, draws: seq<Stamper.Stamp>, b: State, resolver: Resolver, arrivedAt: Double,
                           noEnforcement: bool, allowDuplicate: bool)
    requires SignaturesVerify(c) && resolver(a.address) == Some(c.public(a.key))
    requires Unsent(m) && m.sourceHash == a.address && b.address == Some(m.destinationHash)
    requires GeneratedTicket(f, s, m.destinationHash, now, drawn).Some?
    requires f.less(arrivedAt, GeneratedTicket(f, s, m.destinationHash, now, drawn).value.expires)
    ensures var sent := SentMessage(c, f, s, m, a.key, now, cost, true, drawn, draws);
            && sent.packed.Some?
            && var bytes := sent.packed.value;
               var after := AfterDelivery(c, f, b, bytes, resolver, arrivedAt, noEnforcement, allowDuplicate);
               && a.address in after.outbound
               && after.outbound[a.address] == GeneratedTicket(f, s, m.destinationHash, now, drawn).value
  {
    hide PackCore, Packable, GeneratedTicket, AfterDelivery, UnpackMessage, Prepared, Fields.Get, Fields.Inserted,
         SentStamp;
    var issued := GeneratedTicket(f, s, m.destinationHash, now, drawn).value;
    var prepared := Prepared(f, s, m, now, cost, true, drawn);
    PreparedKeepsText(f, s, m, now, cost, true, drawn);
    PreparedIsPackable(f, s, m, now, cost, true, drawn);
    MessageRoundTrip(c, prepared, a.key, now, draws, resolver);
    PackCoreSets(c, prepared, a.key, now, draws);
    Fields.InsertedGet(m.fields, FIELD_TICKET, TicketField(issued), FIELD_TICKET);
    var bytes := SentMessage(c, f, s, m, a.key, now, cost, true, drawn, draws).packed.value;
    DeliveryRemembers(c, f, b, bytes, resolver, arrivedAt, noEnforcement, allowDuplicate);
  }

  // ---- Tickets work end to end ----------------------------------------------------------------

  /** A message B sends while it holds an unexpired ticket carries the stamp of that ticket. */
  lemma SentCarriesTicketStamp(c: Suite, f: Floats, s: State, m: Message, key: Secret, now: Double,
                               cost: Option<Byte>, includeTicket: bool, drawn: Ticket, draws: seq<Stamper.Stamp>,
                               resolver: Resolver)
    requires Packable(m) && m.packed.None?
    requires m.destinationHash in s.outbound && f.less(now, s.outbound[m.destinationHash].expires)
    ensures var sent := SentMessage(c, f, s, m, key, now, cost, includeTicket, drawn, draws);
            && sent.packed.Some?
            && var got := UnpackMessage(c, sent.packed.value, resolver);
               && got.Ok? && StampedWith(c, got.value, s.outbound[m.destinationHash].ticket)
               && got.value.sourceHash == m.sourceHash && got.value.destinationHash == m.destinationHash
  {
    hide PackCore, Packable, UnpackMessage, Prepared, SentStamp;
    var prepared := Prepared(f, s, m, now, cost, includeTicket, drawn);
    PreparedIsPackable(f, s, m, now, cost, includeTicket, drawn);
    MessageRoundTrip(c, prepared, key, now, draws, resolver);
    PackCoreSets(c, prepared, key, now, draws);
    PreparedTakesTicket(c, f, s, m, now, cost, includeTicket, drawn, draws);
  }

  lemma PreparedTakesTicket(c: Suite, f: Floats, s: State, m: Message, now: Double, cost: Option<Byte>,
                            includeTicket: bool, drawn: Ticket, draws: seq<Stamper.Stamp>)
    requires m.destinationHash in s.outbound && f.less(now, s.outbound[m.destinationHash].expires)
    ensures var p := Prepared(f, s, m, now, cost, includeTicket, drawn);
            var id := c.sha256(HashedPart(p, if p.timestamp.Some? then p.timestamp.value else now));
            && SentStamp(c, p, now, draws) == Some(TicketStamp(c, s.outbound[m.destinationHash].ticket, id))
            && p.packed == m.packed && p.sourceHash == m.sourceHash && p.destinationHash == m.destinationHash
  {
    hide GeneratedTicket, HashedPart, TicketField, Fields.Inserted;
  }

  lemma TicketStampIsWorth(c: Suite, f: Floats, a: State, m: Message, issued: Issued, cost: Option<Byte>, now: Double)
    requires issued in IssuedTo(a, m.sourceHash) && f.less(now, issued.expires) && StampedWith(c, m, issued.ticket)
    ensures StampWorth(c, m, cost, Unexpired(f, IssuedTo(a, m.sourceHash), now)) == Some(COST_TICKET)
  {
    hide StampedWith;
    UnexpiredHasAll(f, IssuedTo(a, m.sourceHash), now, issued);
    var tickets := Unexpired(f, IssuedTo(a, m.sourceHash), now);
    var k :| 0 <= k < |tickets| && tickets[k] == issued.ticket;
  }

  /** A stamp made from a ticket on record passes, and is recorded at the ticket's worth. */
  lemma TicketStampPasses(c: Suite, f: Floats, s: State, bytes: Bytes, resolver: Resolver, issued: Issued,
                          now: Double, noEnforcement: bool, allowDuplicate: bool)
    requires UnpackMessage(c, bytes, resolver).Ok?
    requires var m := UnpackMessage(c, bytes, resolver).value;
             && s.address == Some(m.destinationHash)
             && issued in IssuedTo(s, m.sourceHash) && f.less(now, issued.expires) && StampedWith(c, m, issued.ticket)
    ensures Passes(DeliveryOutcome(c, f, s, bytes, resolver, now, noEnforcement, allowDuplicate), s.stampCost)
  {
    hide UnpackMessage, StampedWith, StampWorth, CarriedTicket, Unexpired;
    var m := UnpackMessage(c, bytes, resolver).value;
    TicketStampIsWorth(c, f, s, m, issued, s.stampCost, now);
  }

  /** The stamp check, if there was one, accepted the ticket. */
  predicate Passes(outcome: Outcome, cost: Option<Byte>) {
    && (outcome.Received? || outcome.Duplicate? || outcome.IgnoredSource?)
    && (cost.Some? ==> outcome.message.stampValid && outcome.message.stampValue == Some(COST_TICKET))
  }

  /** After any run, whatever B then sends to A under a ticket unexpired at both ends passes A's
      stamp check with the ticket's worth, at whatever cost A requires by the time it arrives. */
  lemma TicketsWorkEndToEnd(c: Suite, f: Floats, a: Party, b: Party, a0: State, b0: State, before: seq<Event>,
                            between: seq<Event>, m: Message, key: Secret, sentAt: Double, cost: Option<Byte>,
                            includeTicket: bool, drawn: Ticket, draws: seq<Stamper.Stamp>, resolver: Resolver,
                            arrivedAt: Double, noEnforcement: bool, allowDuplicate: bool)
    requires a0.address == Some(a.address) && b0.address == Some(b.address)
    requires UnforgedRun(c, f, a, Start(a0, b0), before)
    requires UnforgedRun(c, f, a, Run(c, f, a, Start(a0, b0), before), between)
    requires Packable(m) && m.packed.None? && m.destinationHash == a.address && m.sourceHash == b.address
    requires var w := Run(c, f, a, Start(a0, b0), before);
             && a.address in w.b.outbound
             && f.less(sentAt, w.b.outbound[a.address].expires) && f.less(arrivedAt, w.b.outbound[a.address].expires)
    ensures var w := Run(c, f, a, Start(a0, b0), before);
            var later := Run(c, f, a, w, between).a;
            var sent := SentMessage(c, f, w.b, m, key, sentAt, cost, includeTicket, drawn, draws);
            && sent.packed.Some?
            && var bytes := sent.packed.value;
               var outcome := DeliveryOutcome(c, f, later, bytes, resolver, arrivedAt, noEnforcement, allowDuplicate);
               Passes(outcome, later.stampCost)
  {
    hide Run, UnforgedRun, SentMessage, DeliveryOutcome, UnpackMessage, StampedWith, Packable;
    StartHasInv(a, b, a0, b0);
    RunKeepsInv(c, f, a, b, Start(a0, b0), before);
    var w := Run(c, f, a, Start(a0, b0), before);
    RunKeepsInv(c, f, a, b, w, between);
    var later := Run(c, f, a, w, between).a;
    var issued := w.b.outbound[a.address];
    assert issued in IssuedTo(later, b.address);
    SentCarriesTicketStamp(c, f, w.b, m, key, sentAt, cost, includeTicket, drawn, draws, resolver);
    var bytes := SentMessage(c, f, w.b, m, key, sentAt, cost, includeTicket, drawn, draws).packed.value;
    TicketStampPasses(c, f, later, bytes, resolver, issued, arrivedAt, noEnforcement, allowDuplicate);
  }

  lemma StartHasInv(a: Party, b: Party, a0: State, b0: State)
    requires a0.address == Some(a.address) && b0.address == Some(b.address)
    ensures Inv(a, b, Start(a0, b0))
  {
  }
}

/** Proof-of-work stamps from the sender's search to the receiver's check, and what a router makes of
    a message by its stamp, its source and its id (lxmf/src/router.rs, lxmf/src/message.rs). */
module Stamps {
  import opened Octets
  import opened Crypto
  import opened Message
  import opened Router
  import Fields
  import Msgpack
  import Stamper
  import T = Tickets

  // ---- What a router makes of a message -------------------------------------------------------

  /** A ticket the router issued to the source and that has not expired made the stamp. */
  ghost predicate TicketMade(c: Suite, f: Floats, s: State, m: Message, now: Double) {
    exists k :: 0 <= k < |IssuedTo(s, m.sourceHash)| && MadeBy(c, f, IssuedTo(s, m.sourceHash)[k], m, now)
  }

  predicate MadeBy(c: Suite, f: Floats, issued: Issued, m: Message, now: Double) {
    && f.less(now, issued.expires)
    && m.messageId.Some? && m.stamp == Some(c.sha256(issued.ticket + m.messageId.value)[..16])
  }

  /** The stamp is work on the message id worth the cost. */
  predicate WorkDone(c: Suite, m: Message, cost: nat) {
    && m.stamp.Some? && m.messageId.Some?
    && Stamper.StampValid(c, m.stamp.value, cost,
                          Stamper.Workblock(c, m.messageId.value, Stamper.WORKBLOCK_EXPAND_ROUNDS))
  }

  ghost predicate StampGood(c: Suite, f: Floats, s: State, m: Message, now: Double) {
    s.stampCost.Some? ==> TicketMade(c, f, s, m, now) || WorkDone(c, m, s.stampCost.value)
  }

  lemma {:induction false} UnexpiredMatches(c: Suite, f: Floats, issued: seq<Issued>, m: Message, now: Double)
    ensures MatchesTicket(c, m, Unexpired(f, issued, now)) <==>
              exists k :: 0 <= k < |issued| && MadeBy(c, f, issued[k], m, now)
  {
    if issued != [] {
      UnexpiredMatches(c, f, issued[1..], m, now);
      MatchesConcat(c, m, if Live(f, issued[0], now) then [issued[0].ticket] else [], Unexpired(f, issued[1..], now));
      assert forall k :: 0 < k < |issued| ==> issued[k] == issued[1..][k - 1];
      if exists k :: 0 <= k < |issued[1..]| && MadeBy(c, f, issued[1..][k], m, now) {
        var k :| 0 <= k < |issued[1..]| && MadeBy(c, f, issued[1..][k], m, now);
        assert issued[k + 1] == issued[1..][k];
      }
    }
  }

  lemma MatchesConcat(c: Suite, m: Message, first: seq<Ticket>, more: seq<Ticket>)
    ensures MatchesTicket(c, m, first + more) <==> MatchesTicket(c, m, first) || MatchesTicket(c, m, more)
  {
    hide StampedWith;
    var all := first + more;
    if k :| 0 <= k < |more| && StampedWith(c, m, more[k]) {
      assert all[|first| + k] == more[k];
    }
    if k :| 0 <= k < |first| && StampedWith(c, m, first[k]) {
      assert all[k] == first[k];
    }
  }

  /** A stamp is worth something to a router exactly if it is good. */
  lemma WorthIffGood(c: Suite, f: Floats, s: State, m: Message, now: Double)
    requires s.stampCost.Some?
    ensures StampWorth(c, m, s.stampCost, Unexpired(f, IssuedTo(s, m.sourceHash), now)).Some? <==>
              StampGood(c, f, s, m, now)
  {
    hide Unexpired, MadeBy, Stamper.StampValid, Stamper.StampValue, Stamper.Workblock;
    UnexpiredMatches(c, f, IssuedTo(s, m.sourceHash), m, now);
  }

  /** Exactly what becomes of a message for this router: rejected if an enforced stamp is not good,
      else ignored for its source, else dropped as a duplicate, else received. */
  lemma OutcomeIff(c: Suite, f: Floats, s: State, bytes: Bytes, resolver: Resolver, now: Double, noEnforcement: bool,
                   allowDuplicate: bool)
    requires UnpackMessage(c, bytes, resolver).Ok?
    requires s.address == Some(UnpackMessage(c, bytes, resolver).value.destinationHash)
    ensures var m := UnpackMessage(c, bytes, resolver).value;
            var outcome := DeliveryOutcome(c, f, s, bytes, resolver, now, noEnforcement, allowDuplicate);
            var rejected := s.enforceStamps && !noEnforcement && !StampGood(c, f, s, m, now);
            var repeated := !allowDuplicate && m.messageId.value in s.delivered;
            && (outcome.BadStamp? <==> rejected)
            && (outcome.IgnoredSource? <==> !rejected && m.sourceHash in s.ignored)
            && (outcome.Duplicate? <==> !rejected && m.sourceHash !in s.ignored && repeated)
            && (outcome.Received? <==> !rejected && m.sourceHash !in s.ignored && !repeated)
            && (outcome.Received? ==>
                  outcome.message == m.(stampValid := outcome.message.stampValid,
                                        stampValue := outcome.message.stampValue))
            && (outcome.Received? ==>
                  (outcome.message.stampValid <==> s.stampCost.Some? && StampGood(c, f, s, m, now)))
  {
    hide UnpackMessage, StampWorth, CarriedTicket, Unexpired, TicketMade, WorkDone;
    var m := UnpackMessage(c, bytes, resolver).value;
    var remembered := AfterRemember(f, s, m, now);
    UnpackedIsUnjudged(c, bytes, resolver);
    if s.stampCost.Some? {
      WorthIffGood(c, f, remembered, m, now);
      SameRecordSameVerdict(c, f, s, remembered, m, now);
    }
  }

  /** What has just been read carries no judgement on its stamp. */
  lemma UnpackedIsUnjudged(c: Suite, bytes: Bytes, resolver: Resolver)
    requires UnpackMessage(c, bytes, resolver).Ok?
    ensures var m := UnpackMessage(c, bytes, resolver).value;
            !m.stampValid && m.stampValue.None? && m.outboundTicket.None?
  {
  }

  lemma SameRecordSameVerdict(c: Suite, f: Floats, s: State, t: State, m: Message, now: Double)
    requires s.inbound == t.inbound && s.stampCost == t.stampCost
    ensures StampGood(c, f, s, m, now) <==> StampGood(c, f, t, m, now)
  {
    hide MadeBy, WorkDone;
    assert IssuedTo(s, m.sourceHash) == IssuedTo(t, m.sourceHash);
  }

  // ---- From the search to the check -----------------------------------------------------------

  /** The id a message will have when it is packed now. */
  function IdWhenPacked(c: Suite, m: Message, now: nat): Digest {
    c.sha256(HashedPart(m, if m.timestamp.Some? then m.timestamp.value else now))
  }

  /** Some draw is work on that id worth the cost. */
  ghost predicate DrawSucceeds(c: Suite, m: Message, now: nat, cost: nat, draws: seq<Stamper.Stamp>) {
    exists k :: 0 <= k < |draws|
                && Stamper.StampValid(c, draws[k], cost,
                     Stamper.Workblock(c, IdWhenPacked(c, m, now), Stamper.WORKBLOCK_EXPAND_ROUNDS))
  }

  /** A message to be stamped by search alone. */
  predicate Unstamped(m: Message) {
    m.packed.None? && m.outboundTicket.None? && m.stamp.None?
  }

  /** Packing a message with a cost, the stamp not put off, finds a stamp exactly if a draw succeeds,
      and that stamp is work on the id of the message, worth at least the cost. */
  lemma SearchedStamp(c: Suite, m: Message, now: nat, draws: seq<Stamper.Stamp>)
    requires Unstamped(m) && m.stampCost.Some?
    ensures var stamp := SentStamp(c, m, now, draws);
            var block := Stamper.Workblock(c, IdWhenPacked(c, m, now), Stamper.WORKBLOCK_EXPAND_ROUNDS);
            && (stamp.Some? <==> !m.deferStamp && DrawSucceeds(c, m, now, m.stampCost.value, draws))
            && (stamp.Some? ==>
                  && |stamp.value| == Stamper.STAMP_SIZE && Stamper.StampValid(c, stamp.value, m.stampCost.value, block)
                  && m.stampCost.value <= Stamper.StampValue(c, block, stamp.value))
  {
    hide Stamper.StampValid, Stamper.StampValue, Stamper.Workblock, Stamper.FirstValid, HashedPart;
    var block := Stamper.Workblock(c, IdWhenPacked(c, m, now), Stamper.WORKBLOCK_EXPAND_ROUNDS);
    Stamper.FirstValidIsValid(c, block, m.stampCost.value, draws);
  }

  /** What a receiver makes of a packed message whose stamp the sender searched for: it is worth at
      least the cost, whatever lower cost the receiver asks. */
  lemma SearchedStampIsWorth(c: Suite, m: Message, key: Secret, now: nat, draws: seq<Stamper.Stamp>,
                             resolver: Resolver, lower: Byte, tickets: seq<Ticket>)
    requires Packable(m) && now < Msgpack.TWO_64 && Unstamped(m)
    requires m.stampCost.Some? && lower <= m.stampCost.value
    ensures var got := UnpackMessage(c, PackCore(c, m, key, now, draws).packed.value, resolver);
            && got.Ok?
            && (StampWorth(c, got.value, Some(lower), tickets).Some? <==>
                  !m.deferStamp && DrawSucceeds(c, m, now, m.stampCost.value, draws))
            && (StampWorth(c, got.value, Some(lower), tickets).Some? ==>
                  StampWorth(c, got.value, Some(lower), tickets).value >= m.stampCost.value)
  {
    hide UnpackMessage, PackCore, Packable, HashedPart, SentStamp, Stamper.StampValid, Stamper.StampValue,
         Stamper.Workblock, DrawSucceeds;
    MessageRoundTrip(c, m, key, now, draws, resolver);
    PackCoreSets(c, m, key, now, draws);
    SearchedStamp(c, m, now, draws);
    var got := UnpackMessage(c, PackCore(c, m, key, now, draws).packed.value, resolver).value;
    LongStampMatchesNoTicket(c, got, tickets);
    if got.stamp.Some? {
      var block := Stamper.Workblock(c, IdWhenPacked(c, m, now), Stamper.WORKBLOCK_EXPAND_ROUNDS);
      Stamper.ValidityIsMonotone(c, got.stamp.value, m.stampCost.value, lower, block);
    }
  }

  /** Ticket stamps are 16 bytes long and work stamps 32. */
  lemma LongStampMatchesNoTicket(c: Suite, m: Message, tickets: seq<Ticket>)
    requires m.stamp.Some? ==> |m.stamp.value| == Stamper.STAMP_SIZE
    ensures !MatchesTicket(c, m, tickets)
  {
  }

  /** The sender took the cost the receiver announced, and has no ticket. Then the receiver, if it
      enforces stamps, rejects the message exactly if stamping was put off or no draw succeeded. A
      new message puts it off, and nothing stamps it later. */
  lemma AnnouncedCostIsMetIff(c: Suite, f: Floats, b: State, m: Message, key: Secret, sentAt: Double,
                              includeTicket: bool, drawn: Ticket, draws: seq<Stamper.Stamp>, a: State,
                              resolver: Resolver, arrivedAt: Double, allowDuplicate: bool)
    requires Packable(m) && Unstamped(m) && m.stampCost.None? && OutboundTicket(f, b, m.destinationHash, sentAt).None?
    requires a.address == Some(m.destinationHash) && a.stampCost.Some? && a.enforceStamps
    ensures var sent := SentMessage(c, f, b, m, key, sentAt, a.stampCost, includeTicket, drawn, draws);
            var prepared := Prepared(f, b, m, sentAt, a.stampCost, includeTicket, drawn);
            && sent.packed.Some?
            && var outcome := DeliveryOutcome(c, f, a, sent.packed.value, resolver, arrivedAt, false, allowDuplicate);
               outcome.BadStamp? <==> m.deferStamp || !DrawSucceeds(c, prepared, sentAt, a.stampCost.value, draws)
  {
    hide PackCore, Packable, UnpackMessage, StampWorth, DrawSucceeds, DeliveryOutcome, Unexpired, GeneratedTicket;
    var prepared := Prepared(f, b, m, sentAt, a.stampCost, includeTicket, drawn);
    PreparedWithoutTicket(f, b, m, sentAt, a.stampCost, includeTicket, drawn);
    var sent := SentMessage(c, f, b, m, key, sentAt, a.stampCost, includeTicket, drawn, draws);
    PackCoreSets(c, prepared, key, sentAt, draws);
    MessageRoundTrip(c, prepared, key, sentAt, draws, resolver);
    var bytes := sent.packed.value;
    var got := UnpackMessage(c, bytes, resolver).value;
    SearchedStampIsWorth(c, prepared, key, sentAt, draws, resolver, a.stampCost.value,
                         Unexpired(f, IssuedTo(a, got.sourceHash), arrivedAt));
    WorthIffGood(c, f, a, got, arrivedAt);
    OutcomeIff(c, f, a, bytes, resolver, arrivedAt, false, allowDuplicate);
  }

  lemma PreparedWithoutTicket(f: Floats, b: State, m: Message, now: Double, cost: Option<Byte>, includeTicket: bool,
                              drawn: Ticket)
    requires Packable(m) && Unstamped(m) && m.stampCost.None? && OutboundTicket(f, b, m.destinationHash, now).None?
    ensures var p := Prepared(f, b, m, now, cost, includeTicket, drawn);
            && Packable(p) && Unstamped(p) && p.stampCost == cost && p.deferStamp == m.deferStamp
            && p.destinationHash == m.destinationHash && p.sourceHash == m.sourceHash
  {
    hide Packable, GeneratedTicket, TicketField, OutboundTicket;
    T.PreparedIsPackable(f, b, m, now, cost, includeTicket, drawn);
  }

  /** Which stamp goes out: none if stamping is put off; the one of a ticket before any other; none
      without a cost; then one the message has already; only then one that is searched for. */
  lemma StampSentIs(c: Suite, m: Message, now: nat, draws: seq<Stamper.Stamp>)
    ensures m.deferStamp ==> SentStamp(c, m, now, draws) == None
    ensures !m.deferStamp && m.outboundTicket.Some? ==>
              SentStamp(c, m, now, draws) == Some(c.sha256(m.outboundTicket.value + IdWhenPacked(c, m, now))[..16])
    ensures m.outboundTicket.None? && m.stampCost.None? ==> SentStamp(c, m, now, draws) == None
    ensures !m.deferStamp && m.outboundTicket.None? && m.stampCost.Some? && m.stamp.Some? ==>
              SentStamp(c, m, now, draws) == m.stamp
  {
    hide HashedPart, Stamper.FirstValid, Stamper.Workblock;
  }

  /** A message that is not stamped anew keeps the stamp it has and what is recorded of it. */
  lemma KeptStampKeepsRecord(c: Suite, m: Message, key: Secret, now: nat, draws: seq<Stamper.Stamp>)
    requires m.deferStamp || (m.outboundTicket.None? && (m.stampCost.None? || m.stamp.Some?))
    ensures var sent := PackCore(c, m, key, now, draws);
            sent.stamp == m.stamp && sent.stampValue == m.stampValue && sent.stampValid == m.stampValid
  {
    hide HashedPart, PackPayload, Stamper.FirstValid, Stamper.Workblock, Stamper.StampValue;
  }

  /** So a new message, sent as it is to a router that enforces the cost it announced, is rejected. */
  lemma NewMessageIsRejected(c: Suite, f: Floats, b: State, source: Address, title: Bytes, content: Bytes, key: Secret,
                             sentAt: Double, drawn: Ticket, draws: seq<Stamper.Stamp>, a: State, resolver: Resolver,
                             arrivedAt: Double, allowDuplicate: bool)
    requires |title| < Msgpack.TWO_32 && |content| < Msgpack.TWO_32
    requires a.address.Some? && a.stampCost.Some? && a.enforceStamps
    requires OutboundTicket(f, b, a.address.value, sentAt).None?
    ensures var m := NewMessage(a.address.value, source, title, content);
            var sent := SentMessage(c, f, b, m, key, sentAt, a.stampCost, false, drawn, draws);
            && sent.packed.Some?
            && DeliveryOutcome(c, f, a, sent.packed.value, resolver, arrivedAt, false, allowDuplicate).BadStamp?
  {
    hide SentMessage, DeliveryOutcome, OutboundTicket;
    var m := NewMessage(a.address.value, source, title, content);
    AnnouncedCostIsMetIff(c, f, b, m, key, sentAt, false, drawn, draws, a, resolver, arrivedAt, allowDuplicate);
  }

  /** What the sender records of a stamp is what a receiver finds it worth: a ticket's fixed worth, or
      the value of the work, at any cost it meets. */
  lemma SenderAndReceiverAgree(c: Suite, m: Message, key: Secret, now: nat, draws: seq<Stamper.Stamp>,
                               resolver: Resolver, lower: Byte, tickets: seq<Ticket>)
    requires Packable(m) && now < Msgpack.TWO_64 && m.packed.None? && SentStamp(c, m, now, draws).Some?
    requires if m.outboundTicket.Some? then m.outboundTicket.value in tickets
             else m.stamp.None? && m.stampCost.Some? && lower <= m.stampCost.value
    ensures var sent := PackCore(c, m, key, now, draws);
            var got := UnpackMessage(c, sent.packed.value, resolver);
            && got.Ok? && sent.stamp == got.value.stamp == SentStamp(c, m, now, draws)
            && sent.stampValue.Some? && sent.stampValue == StampWorth(c, got.value, Some(lower), tickets)
            && (m.outboundTicket.None? ==> sent.stampValid)
  {
    hide UnpackMessage, Packable, HashedPart, Stamper.StampValid, Stamper.StampValue, Stamper.Workblock, PackPayload,
         Stamper.FirstValid;
    MessageRoundTrip(c, m, key, now, draws, resolver);
    PackCoreSets(c, m, key, now, draws);
    var got := UnpackMessage(c, PackCore(c, m, key, now, draws).packed.value, resolver).value;
    if m.outboundTicket.Some? {
      var k :| 0 <= k < |tickets| && tickets[k] == m.outboundTicket.value;
      assert StampedWith(c, got, tickets[k]);
    } else {
      SearchedStamp(c, m, now, draws);
      SearchedStampIsWorth(c, m, key, now, draws, resolver, lower, tickets);
      LongStampMatchesNoTicket(c, got, tickets);
    }
  }

  // ---- Tickets on the way -----------------------------------------------------------------------

  /** A message goes out under the ticket held for its destination exactly while that has not expired;
      then its stamp is not put off. */
  lemma TicketUsedIff(f: Floats, s: State, m: Message, now: Double, cost: Option<Byte>, includeTicket: bool,
                      drawn: Ticket)
    ensures var p := Prepared(f, s, m, now, cost, includeTicket, drawn);
            if m.destinationHash in s.outbound && f.less(now, s.outbound[m.destinationHash].expires)
            then p.outboundTicket == Some(s.outbound[m.destinationHash].ticket) && !p.deferStamp
            else p.outboundTicket == m.outboundTicket && p.deferStamp == m.deferStamp
  {
    hide GeneratedTicket, TicketField, Fields.Inserted, Costed;
  }

  /** A ticket put into a message is read from it exactly while it has not expired, as it was put in. */
  lemma TicketIsReadIff(f: Floats, fields: seq<Fields.Field>, issued: Issued, now: Double)
    ensures CarriedTicket(f, Fields.Inserted(fields, FIELD_TICKET, TicketField(issued)), now) ==
            if f.less(now, issued.expires) then Some(issued) else None
  {
    hide Fields.Inserted, Fields.Get;
    Fields.InsertedGet(fields, FIELD_TICKET, TicketField(issued), FIELD_TICKET);
  }
}

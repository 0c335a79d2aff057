/** The mutable message object (`LXMessage` in lxmf/src/message.rs), proved against the functions
    of module `Message`. */
module LXMessage {
  import opened Octets
  import opened Crypto
  import opened M = Message
  import U = Upload
  import Stamper
  import Base64

  /** The struct behind a mutable reference; the methods update its fields in the source's order. */
  class LXMessage {
    var m: Message
    var transientId: Option<Digest>
    var propagationStamp: Option<Bytes>
    var propagationPacked: Option<Bytes>

    function Value(): U.Outgoing
      reads this
    {
      U.Outgoing(m, transientId, propagationStamp, propagationPacked)
    }

    constructor (destinationHash: Address, sourceHash: Address, title: Bytes, content: Bytes)
      ensures Value() == U.Outgoing(NewMessage(destinationHash, sourceHash, title, content), None, None, None)
    {
      m := NewMessage(destinationHash, sourceHash, title, content);
      transientId, propagationStamp, propagationPacked := None, None, None;
    }

    method GetStamp(c: Suite, draws: seq<Stamper.Stamp>) returns (r: Option<Bytes>)
      modifies `m
      ensures r == M.GetStamp(c, old(m), draws)
      ensures m == AfterGetStamp(c, old(m), draws)
    {
      if m.outboundTicket.Some? {
        if m.messageId.None? {
          return None;
        }
        var made := TicketStamp(c, m.outboundTicket.value, m.messageId.value);
        m := m.(stampValue := Some(COST_TICKET));
        return Some(made);
      }
      if m.stampCost.None? {
        return None;
      }
      if m.stamp.Some? {
        return m.stamp;
      }
      if m.messageId.None? {
        return None;
      }
      var workblock := Stamper.ExpandWorkblock(c, m.messageId.value, Stamper.WORKBLOCK_EXPAND_ROUNDS);
      var found, value := Stamper.GenerateAgainst(c, workblock, m.stampCost.value, draws);
      if found.None? {
        return None;
      }
      m := m.(stampValue := Some(value));
      m := m.(stampValid := true);
      return Some(found.value);
    }

    method PackCore(c: Suite, key: Secret, now: nat, draws: seq<Stamper.Stamp>) returns (error: Option<Error>)
      modifies `m, `propagationPacked
      ensures old(m).packed.Some? ==> error == Some(AlreadyPacked) && Value() == old(Value())
      ensures old(m).packed.None? ==>
                error == None && m == M.PackCore(c, old(m), key, now, draws) && propagationPacked == None
    {
      hide PackPayload, M.GetStamp, AfterGetStamp, HashedPart;
      if m.packed.Some? {
        return Some(AlreadyPacked);
      }
      var timestamp := if m.timestamp.Some? then m.timestamp.value else now;
      var id := IdOf(c, m, timestamp);
      propagationPacked := None;
      m := m.(timestamp := Some(timestamp), paperPacked := None, messageId := Some(id));
      var stamp := None;
      if !m.deferStamp {
        stamp := GetStamp(c, draws);
      }
      var signature := SignatureOf(c, m, key);
      var payload := PackPayload(m, timestamp, stamp);
      if stamp.Some? {
        m := m.(stamp := stamp);
      }
      m := m.(signature := Some(signature), signatureValidated := true, packedPayload := Some(payload),
              packed := Some(m.destinationHash + m.sourceHash + signature + payload));
      error := None;
    }

    method PackPaper(c: Suite, key: Secret, now: nat, draws: seq<Stamper.Stamp>, random: Bytes)
      returns (error: Option<Error>)
      modifies `m, `propagationPacked
      ensures old(m).packed.Some? ==>
                && error == Some(AlreadyPacked) && m == old(m).(desiredMethod := Some(PAPER))
                && propagationPacked == old(propagationPacked)
      ensures old(m).packed.None? ==>
                && m == M.PackPaper(c, old(m), key, now, draws, random) && error == PaperError(m)
                && propagationPacked == None
    {
      hide M.PackCore, EncryptedForm;
      m := m.(desiredMethod := Some(PAPER));
      PackCoreKeeps(c, m, key, now, draws);
      error := PackCore(c, key, now, draws);
      if error.Some? {
        return;
      }
      if m.destinationIdentity.None? {
        return Some(PathUnknown);
      }
      var form := EncryptedForm(c, m.destinationIdentity.value, random, m.packed.value);
      if form.None? {
        return Some(CannotEncrypt);
      }
      m := m.(paperPacked := form);
      if |form.value| > Base64.PAPER_MDU {
        error := Some(ContentTooLarge);
      }
    }

    method Pack(c: Suite, key: Secret, now: nat, draws: seq<Stamper.Stamp>) returns (error: Option<Error>)
      modifies `m, `propagationPacked
      ensures old(m).packed.Some? ==> error == Some(AlreadyPacked) && Value() == old(Value())
      ensures old(m).packed.None? ==>
                && m == Settled(M.PackCore(c, old(m), key, now, draws)) && error == PackError(m)
                && propagationPacked == None
    {
      hide M.PackCore;
      error := PackCore(c, key, now, draws);
      if error.Some? {
        return;
      }
      if m.desiredMethod.None? {
        m := m.(desiredMethod := Some(DIRECT));
      }
      if m.desiredMethod == Some(OPPORTUNISTIC) && m.packedPayload.Some?
         && |m.packedPayload.value| > PAYLOAD_OVERHEAD + ENCRYPTED_PACKET_MAX_CONTENT {
        m := m.(desiredMethod := Some(DIRECT));
      }
      if m.desiredMethod != Some(OPPORTUNISTIC) && m.desiredMethod != Some(DIRECT) {
        error := Some(UnsupportedMethod);
      }
    }

    method PackPropagation(c: Suite, key: Secret, h: U.Chance) returns (error: Option<Error>)
      modifies this
      ensures Value() == U.PackPropagation(c, old(Value()), key, h)
      ensures error == U.PropagationError(old(Value()), Value())
    {
      hide M.PackCore, U.Container, EncryptedForm;
      m := m.(desiredMethod := Some(PROPAGATED));
      PackCoreKeeps(c, m, key, h.now, h.draws);
      error := PackCore(c, key, h.now, h.draws);
      if error.Some? {
        return;
      }
      if m.destinationIdentity.None? {
        return Some(PathUnknown);
      }
      var form := EncryptedForm(c, m.destinationIdentity.value, h.random, m.packed.value);
      if form.None? {
        return Some(CannotEncrypt);
      }
      transientId := Some(c.sha256(form.value));
      var stamp := if propagationStamp.Some? then propagationStamp.value else [];
      propagationPacked := Some(U.Container(h.time, form.value, stamp));
    }

    method GetPropagationStamp(c: Suite, cost: Byte, source: Option<Secret>, h: U.Chance, draws: seq<Stamper.Stamp>)
      returns (r: Result<Option<Bytes>, Error>)
      modifies this
      ensures Value() == U.WithStamp(c, old(Value()), cost, source, h, draws)
      ensures r.Ok? ==> r.value == propagationStamp
      ensures r.Err? <==> propagationStamp.None? && transientId.None?
      ensures r.Err? ==>
                Some(r.error) == if source.None? then Some(NotPacked) else U.PropagationError(old(Value()), Value())
    {
      hide U.PackPropagation;
      if propagationStamp.Some? {
        return Ok(propagationStamp);
      }
      if transientId.None? {
        if source.None? {
          return Err(NotPacked);
        }
        PackPropagationSets(c, Value(), source.value, h);
        var error := PackPropagation(c, source.value, h);
        if error.Some? {
          return Err(error.value);
        }
      }
      var workblock := Stamper.ExpandWorkblock(c, transientId.value, Stamper.WORKBLOCK_EXPAND_ROUNDS_PN);
      var found, _ := Stamper.GenerateAgainst(c, workblock, cost, draws);
      if found.None? {
        return Ok(None);
      }
      propagationStamp := Some(found.value);
      return Ok(propagationStamp);
    }

    /** The accept decision, with the work value recorded when it is positive. */
    method ValidateStamp(c: Suite, cost: Option<Byte>, tickets: seq<Ticket>) returns (valid: bool)
      modifies `m
      ensures var worth := StampWorth(c, old(m), cost, tickets);
              valid == worth.Some? && m == (if worth.Some? then old(m).(stampValue := worth) else old(m))
    {
      for k := 0 to |tickets|
        invariant m == old(m)
        invariant forall j :: 0 <= j < k ==> !StampedWith(c, m, tickets[j])
      {
        if StampedWith(c, m, tickets[k]) {
          m := m.(stampValue := Some(COST_TICKET));
          return true;
        }
      }
      if m.stamp.None? || cost.None? || m.messageId.None? {
        return false;
      }
      var workblock := Stamper.ExpandWorkblock(c, m.messageId.value, Stamper.WORKBLOCK_EXPAND_ROUNDS);
      if !Stamper.StampValid(c, m.stamp.value, cost.value, workblock) {
        return false;
      }
      m := m.(stampValue := Some(Stamper.StampValue(c, workblock, m.stamp.value)));
      return true;
    }
  }

  lemma PackCoreKeeps(c: Suite, m: Message, key: Secret, now: nat, draws: seq<Stamper.Stamp>)
    ensures var sent := M.PackCore(c, m, key, now, draws);
            && sent.destinationIdentity == m.destinationIdentity && sent.paperPacked == None
            && sent.desiredMethod == m.desiredMethod
            && sent.packed.Some? && |sent.packed.value| >= HEAD_LENGTH
  {
    hide PackPayload, M.GetStamp;
  }

  lemma PackPropagationSets(c: Suite, o: U.Outgoing, key: Secret, h: U.Chance)
    requires o.transientId.None?
    ensures var after := U.PackPropagation(c, o, key, h);
            && after.propagationStamp == o.propagationStamp
            && (after.transientId.Some? <==> U.PropagationError(o, after).None?)
  {
    hide M.PackCore, U.Container;
    PackCoreKeeps(c, o.m.(desiredMethod := Some(PROPAGATED)), key, h.now, h.draws);
  }

  // ---- Paper messages -------------------------------------------------------------------------

  /** A paper message that was encrypted, turned into a URI and read by its destination, is the
      message that was packed, under the same id; and packing accepts it exactly when the URI fits
      a QR code. */
  lemma PaperRoundTrip(c: Suite, m: Message, key: Secret, now: nat, draws: seq<Stamper.Stamp>, random: Bytes,
                       destination: Secret, resolver: Resolver)
    requires DecryptsOwn(c) && Packable(m) && now < 0x1_0000_0000_0000_0000
    requires m.destinationIdentity == Some(c.public(destination))
    ensures var sent := M.PackPaper(c, m, key, now, draws, random);
            var uri := AsUri(sent);
            && (uri.Ok? <==> PaperError(sent) != Some(CannotEncrypt))
            && (PaperError(sent) == None <==> uri.Ok? && |uri.value| <= Base64.QR_MAX_STORAGE)
    ensures var sent := M.PackPaper(c, m, key, now, draws, random);
            var uri := AsUri(sent);
            uri.Ok? ==>
              var got := UnpackFromUri(c, uri.value, destination, resolver);
              && sent.paperPacked.Some? && got.Ok? && got.value.1 == c.sha256(sent.paperPacked.value)
              && Recovered(sent, got.value.0, SentStamp(c, m, now, draws))
              && (SignaturesVerify(c) && resolver(m.sourceHash) == Some(c.public(key)) ==>
                    got.value.0.signatureValidated)
  {
    hide M.PackCore, UnpackMessage, Packable, Base64.Uri, Base64.UriBytes, SentStamp;
    var paper := m.(desiredMethod := Some(PAPER));
    PaperIsPackable(m);
    PackCoreKeeps(c, paper, key, now, draws);
    MessageRoundTrip(c, paper, key, now, draws, resolver);
    SentStampIgnoresMethod(c, m, now, draws);
    var packed := M.PackCore(c, paper, key, now, draws).packed.value;
    var sealed := c.encrypt(c.public(destination), random, packed[DESTINATION_LENGTH..]);
    if sealed.Some? {
      var data := M.PackPaper(c, m, key, now, draws, random).paperPacked.value;
      Base64.UriRoundTrip(data);
      Base64.PaperMduIsExact(data);
      assert data[..DESTINATION_LENGTH] == packed[..DESTINATION_LENGTH] && data[DESTINATION_LENGTH..] == sealed.value;
      assert packed[..DESTINATION_LENGTH] + packed[DESTINATION_LENGTH..] == packed;
    }
  }

  /** Exactly when and how packing a message for paper fails. */
  lemma PaperFailsIff(c: Suite, m: Message, key: Secret, now: nat, draws: seq<Stamper.Stamp>, random: Bytes)
    ensures var sent := M.PackPaper(c, m, key, now, draws, random);
            && sent.packed.Some? && sent.desiredMethod == Some(PAPER)
            && (PaperError(sent) == Some(PathUnknown) <==> m.destinationIdentity.None?)
            && (m.destinationIdentity.Some? ==>
                  && |sent.packed.value| >= DESTINATION_LENGTH
                  && var form := EncryptedForm(c, m.destinationIdentity.value, random, sent.packed.value);
                     && (PaperError(sent) == Some(CannotEncrypt) <==> form.None?)
                     && (PaperError(sent) == Some(ContentTooLarge) <==> form.Some? && |form.value| > 2210)
                     && (PaperError(sent) == None <==> form.Some? && |form.value| <= 2210))
  {
    hide M.PackCore, EncryptedForm;
    PackCoreKeeps(c, m.(desiredMethod := Some(PAPER)), key, now, draws);
    assert Base64.PAPER_MDU == 2210;
  }

  lemma PaperIsPackable(m: Message)
    requires Packable(m)
    ensures Packable(m.(desiredMethod := Some(PAPER)))
  {
  }

  lemma SentStampIgnoresMethod(c: Suite, m: Message, now: nat, draws: seq<Stamper.Stamp>)
    ensures SentStamp(c, m, now, draws) == SentStamp(c, m.(desiredMethod := Some(PAPER)), now, draws)
  {
    var paper := m.(desiredMethod := Some(PAPER));
    var timestamp := if m.timestamp.Some? then m.timestamp.value else now;
    PayloadIsText(m, paper, timestamp, None);
    assert HashedPart(m, timestamp) == HashedPart(paper, timestamp);
  }
}

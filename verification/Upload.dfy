/** A message on its way to a propagation node, as its author's side handles it: `pack_propagation`
    and `get_propagation_stamp` (lxmf/src/message.rs). */
module Upload {
  import opened Octets
  import opened Crypto
  import opened Message
  import V = Msgpack
  import Stamper

  /** IEEE 754 bit patterns. */
  type Time = n: nat | n < V.TWO_64

  /** A message with the fields that packing for a propagation node sets. */
  datatype Outgoing = Outgoing(
    m: Message,
    transientId: Option<Digest>,
    propagationStamp: Option<Bytes>,
    propagationPacked: Option<Bytes>)

  /** The container of a transfer: the time and one message, with what follows it as a stamp. */
  function Container(time: nat, lxmData: Bytes, stamp: Bytes): Bytes {
    V.WriteArrayLen(2) + V.WriteF64(time) + V.WriteArrayLen(1)
    + V.WriteBinLen(V.Len32(|lxmData + stamp|)) + (lxmData + stamp)
  }

  /** What the random sources and the clock yield while a message is packed. */
  datatype Chance = Chance(now: nat, draws: seq<Stamper.Stamp>, random: Bytes, time: Time)

  /** The transport form of a packed message: destination in clear, the rest encrypted for it. */
  function FormOf(c: Suite, m: Message, random: Bytes): (form: Option<Bytes>)
    ensures form.Some? ==> |form.value| >= DESTINATION_LENGTH
  {
    if m.destinationIdentity.None? || m.packed.None? || |m.packed.value| < DESTINATION_LENGTH then None
    else EncryptedForm(c, m.destinationIdentity.value, random, m.packed.value)
  }

  /** `pack_propagation`. */
  function PackPropagation(c: Suite, o: Outgoing, key: Secret, h: Chance): Outgoing {
    var chosen := o.m.(desiredMethod := Some(PROPAGATED));
    if o.m.packed.Some? then o.(m := chosen)
    else
      var sent := PackCore(c, chosen, key, h.now, h.draws);
      match FormOf(c, sent, h.random)
      case None => o.(m := sent, propagationPacked := None)
      case Some(form) =>
        var stamp := if o.propagationStamp.Some? then o.propagationStamp.value else [];
        o.(m := sent, transientId := Some(c.sha256(form)), propagationPacked := Some(Container(h.time, form, stamp)))
  }

  /** How `pack_propagation` ends, from what it found and what it left. */
  function PropagationError(before: Outgoing, after: Outgoing): Option<Error> {
    if before.m.packed.Some? then Some(AlreadyPacked)
    else if after.m.destinationIdentity.None? then Some(PathUnknown)
    else if after.propagationPacked.None? then Some(CannotEncrypt)
    else None
  }

  /** `get_propagation_stamp`: packs first, if need be and if it can, then searches. */
  function WithStamp(c: Suite, o: Outgoing, cost: Byte, source: Option<Secret>, h: Chance,
                     draws: seq<Stamper.Stamp>): Outgoing
  {
    if o.propagationStamp.Some? then o
    else
      var ready := if o.transientId.None? && source.Some? then PackPropagation(c, o, source.value, h) else o;
      match ready.transientId
      case None => ready
      case Some(id) =>
        match Stamper.FirstValid(c, Stamper.Workblock(c, id, Stamper.WORKBLOCK_EXPAND_ROUNDS_PN), cost, draws)
        case Some(stamp) => ready.(propagationStamp := Some(stamp))
        case None => ready
  }

  // ---- What an application can do with a message ------------------------------------------------

  /** Calls on a message, and edits of any of its own fields but its packed bytes. */
  datatype Call =
    | Edit(m: Message)
    | Pack(key: Secret, h: Chance)
    | PackForPaper(key: Secret, h: Chance)
    | PackForUpload(key: Secret, h: Chance)
    | FindStamp(cost: Byte, source: Option<Secret>, h: Chance, draws: seq<Stamper.Stamp>)

  function Step(c: Suite, o: Outgoing, call: Call): Outgoing {
    match call
    case Edit(m) => if m.packed == o.m.packed then o.(m := m) else o
    case Pack(key, h) =>
      if o.m.packed.Some? then o
      else o.(m := Settled(PackCore(c, o.m, key, h.now, h.draws)), propagationPacked := None)
    case PackForPaper(key, h) =>
      if o.m.packed.Some? then o.(m := o.m.(desiredMethod := Some(PAPER)))
      else o.(m := PackPaper(c, o.m, key, h.now, h.draws, h.random), propagationPacked := None)
    case PackForUpload(key, h) => PackPropagation(c, o, key, h)
    case FindStamp(cost, source, h, draws) => WithStamp(c, o, cost, source, h, draws)
  }

  function Run(c: Suite, o: Outgoing, calls: seq<Call>): Outgoing
    decreases |calls|
  {
    if calls == [] then o else Run(c, Step(c, o, calls[0]), calls[1..])
  }

  /** The upload is the transport form of the packed message with nothing after it. */
  ghost predicate Bare(c: Suite, o: Outgoing, time: Time, form: Bytes, identity: Public, random: Bytes) {
    && o.propagationPacked == Some(Container(time, form, []))
    && o.transientId == Some(c.sha256(form))
    && o.m.packed.Some? && |o.m.packed.value| >= DESTINATION_LENGTH
    && EncryptedForm(c, identity, random, o.m.packed.value) == Some(form)
  }

  ghost predicate UploadIsBare(c: Suite, o: Outgoing) {
    o.propagationPacked.Some? ==> exists time, form, identity, random :: Bare(c, o, time, form, identity, random)
  }

  /** There is no id to search a stamp for, and so no stamp, before the message is packed. */
  ghost predicate Inv(c: Suite, o: Outgoing) {
    && (o.m.packed.None? ==> o.transientId.None? && o.propagationStamp.None? && o.propagationPacked.None?)
    && UploadIsBare(c, o)
  }

  lemma PackPropagationKeepsInv(c: Suite, o: Outgoing, key: Secret, h: Chance)
    requires Inv(c, o)
    ensures Inv(c, PackPropagation(c, o, key, h))
  {
    hide PackCore, Container;
    var after := PackPropagation(c, o, key, h);
    var chosen := o.m.(desiredMethod := Some(PROPAGATED));
    if o.m.packed.Some? {
      BareIgnoresTheRest(c, o, after);
    } else {
      PackCoreSets(c, chosen, key, h.now, h.draws);
      var form := FormOf(c, after.m, h.random);
      if form.Some? {
        assert Bare(c, after, h.time, form.value, after.m.destinationIdentity.value, h.random);
      }
    }
  }

  lemma BareIgnoresTheRest(c: Suite, o: Outgoing, after: Outgoing)
    requires UploadIsBare(c, o) && after.m.packed == o.m.packed
    requires after.transientId == o.transientId && after.propagationPacked == o.propagationPacked
    ensures UploadIsBare(c, after)
  {
    hide Container, EncryptedForm;
    if o.propagationPacked.Some? {
      var time, form, identity, random :| Bare(c, o, time, form, identity, random);
      assert Bare(c, after, time, form, identity, random);
    }
  }

  lemma WithStampKeepsInv(c: Suite, o: Outgoing, cost: Byte, source: Option<Secret>, h: Chance,
                          draws: seq<Stamper.Stamp>)
    requires Inv(c, o)
    ensures Inv(c, WithStamp(c, o, cost, source, h, draws))
  {
    hide PackPropagation, UploadIsBare, Stamper.FirstValid, Stamper.Workblock;
    if o.propagationStamp.None? && o.transientId.None? && source.Some? {
      PackPropagationKeepsInv(c, o, source.value, h);
      BareIgnoresTheRest(c, PackPropagation(c, o, source.value, h), WithStamp(c, o, cost, source, h, draws));
    } else {
      BareIgnoresTheRest(c, o, WithStamp(c, o, cost, source, h, draws));
    }
  }

  lemma StepKeepsInv(c: Suite, o: Outgoing, call: Call)
    requires Inv(c, o)
    ensures Inv(c, Step(c, o, call))
  {
    hide PackCore, PackPropagation, WithStamp, Bare;
    match call
    case PackForUpload(key, h) => PackPropagationKeepsInv(c, o, key, h);
    case FindStamp(cost, source, h, draws) => WithStampKeepsInv(c, o, cost, source, h, draws);
    case Edit(_) => BareIgnoresTheRest(c, o, Step(c, o, call));
    case Pack(key, h) =>
      if o.m.packed.None? {
        PackCoreSets(c, o.m, key, h.now, h.draws);
      }
    case PackForPaper(key, h) =>
      if o.m.packed.None? {
        PackCoreSets(c, o.m.(desiredMethod := Some(PAPER)), key, h.now, h.draws);
      } else {
        BareIgnoresTheRest(c, o, Step(c, o, call));
      }
  }

  lemma {:induction false} RunKeepsInv(c: Suite, o: Outgoing, calls: seq<Call>)
    requires Inv(c, o)
    ensures Inv(c, Run(c, o, calls))
    decreases |calls|
  {
    hide Inv, Step;
    if calls != [] {
      StepKeepsInv(c, o, calls[0]);
      RunKeepsInv(c, Step(c, o, calls[0]), calls[1..]);
    }
  }

  /** Whatever an application does with a message, the upload carries no propagation stamp: one can
      only be searched for once the message is packed, and the upload is not made again. */
  lemma UploadCarriesNoStamp(c: Suite, o: Outgoing, calls: seq<Call>)
    requires o.transientId.None? && o.propagationStamp.None? && o.propagationPacked.None?
    ensures UploadIsBare(c, Run(c, o, calls))
  {
    RunKeepsInv(c, o, calls);
  }

  /** For a message packed for upload that has none yet, a stamp is found exactly if some draw is work on
      its transient id worth the cost, and the message is otherwise left alone. */
  lemma StampIsFoundIff(c: Suite, o: Outgoing, cost: Byte, source: Option<Secret>, h: Chance,
                        draws: seq<Stamper.Stamp>)
    requires o.transientId.Some? && o.propagationStamp.None?
    ensures var after := WithStamp(c, o, cost, source, h, draws);
            var block := Stamper.Workblock(c, o.transientId.value, Stamper.WORKBLOCK_EXPAND_ROUNDS_PN);
            && (after.propagationStamp.Some? <==>
                  exists k :: 0 <= k < |draws| && Stamper.StampValid(c, draws[k], cost, block))
            && after == o.(propagationStamp := after.propagationStamp)
  {
    hide Stamper.FirstValid, Stamper.StampValid, Stamper.Workblock, Stamper.StampValue;
    var block := Stamper.Workblock(c, o.transientId.value, Stamper.WORKBLOCK_EXPAND_ROUNDS_PN);
    Stamper.FirstValidIsValid(c, block, cost, draws);
  }

  /** A stamp found for a message packed for upload is one a node accepts at that cost and at every
      lower one, if it is put after the transport form. */
  lemma FoundStampValidates(c: Suite, o: Outgoing, form: Bytes, cost: Byte, source: Option<Secret>, h: Chance,
                            draws: seq<Stamper.Stamp>, lower: nat)
    requires o.transientId == Some(c.sha256(form)) && o.propagationStamp.None? && |form| > Stamper.LXMF_OVERHEAD
    requires WithStamp(c, o, cost, source, h, draws).propagationStamp.Some? && lower <= cost
    ensures var stamp := WithStamp(c, o, cost, source, h, draws).propagationStamp.value;
            var v := Stamper.ValidatePnStamp(c, form + stamp, lower);
            && stamp in draws && v.Some? && v.value.lxmData == form && v.value.stamp == stamp
            && v.value.transientId == c.sha256(form) && v.value.value >= cost
  {
    hide PackPropagation, Stamper.FirstValid, Stamper.StampValue, Stamper.StampValid, Stamper.ValidatePnStamp,
         Stamper.Workblock;
    var block := Stamper.PnWorkblock(c, form);
    Stamper.FirstValidIsValid(c, block, cost, draws);
    var stamp := Stamper.FirstValid(c, block, cost, draws).value;
    Stamper.PnStampRoundTrip(c, form, stamp, lower);
  }
}

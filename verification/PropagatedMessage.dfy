/** A message from author to reader by way of a propagation node: its transport form, the transfer,
    the store, the fetch and the reader's decryption (lxmf/src/message.rs, lxmf/src/router.rs). */
module PropagatedMessage {
  import opened Octets
  import opened Crypto
  import opened Message
  import opened Propagation
  import opened PropagationSession
  import U = Upload
  import V = Msgpack
  import Stamper

  /** The transport form of a message packed now. */
  function TransportForm(c: Suite, m: Message, key: Secret, now: nat, draws: seq<Stamper.Stamp>,
                         random: Bytes): Option<Bytes>
  {
    U.FormOf(c, PackCore(c, m, key, now, draws), random)
  }

  /** What the reader does with a fetched message: decrypt, put the destination back, unpack. */
  function Opened(c: Suite, key: Secret, lxmData: Bytes, resolver: Resolver): Option<Message> {
    if |lxmData| < DESTINATION_LENGTH then None
    else
      match c.decrypt(key, lxmData[DESTINATION_LENGTH..])
      case None => None
      case Some(plain) =>
        match UnpackMessage(c, lxmData[..DESTINATION_LENGTH] + plain, resolver)
        case Ok(m) => Some(m)
        case Err(_) => None
  }

  lemma ContainerIsRead(time: nat, lxmData: Bytes, stamp: Bytes)
    requires time < V.TWO_64 && |lxmData| + |stamp| < V.TWO_32
    ensures TransferItems(U.Container(time, lxmData, stamp)) == Some([V.Bin(lxmData + stamp)])
  {
    hide V.Unpack, V.WriteArrayLen, V.WriteBinLen, V.WriteF64;
    var data := lxmData + stamp;
    var inner := V.Array([V.Bin(data)]);
    var outer := V.Array([V.F64(time), inner]);
    assert V.PackItems([V.Bin(data)]) == V.Pack(V.Bin(data)) + [];
    assert [V.F64(time), inner][1..] == [inner];
    assert V.PackItems([inner]) == V.Pack(inner) + [];
    assert V.Pack(inner) == V.WriteArrayLen(1) + V.Pack(V.Bin(data));
    assert V.PackItems([V.F64(time), inner]) == V.Pack(V.F64(time)) + V.PackItems([inner]);
    assert V.Pack(outer) == U.Container(time, lxmData, stamp);
    assert V.WellFormed(V.Bin(data)) && V.WellFormed(inner) && V.WellFormed(V.F64(time));
    V.RoundTrip(outer, []);
    assert V.Pack(outer) + [] == V.Pack(outer);
  }

  /** A transfer of a new, well-stamped message for somebody else is stored, and served to its
      destination byte for byte as it was before the stamp was added. */
  lemma TransferIsServed(c: Suite, k: Config, n: Node, time: nat, lxmData: Bytes, stamp: Stamper.Stamp, t: Moment)
    requires time < V.TWO_64 && Stamper.LXMF_OVERHEAD < |lxmData| && |lxmData| + Stamper.STAMP_SIZE < V.TWO_32
    requires k.hosting && k.minCost <= Stamper.StampValue(c, Stamper.PnWorkblock(c, lxmData), stamp)
    requires c.sha256(lxmData) !in n.entries && c.sha256(lxmData) !in n.processed
    requires !DeliveredLocally(c, k, lxmData) && forall path :: t.disk(path)
    ensures var after := AfterTransfer(c, k, n, U.Container(time, lxmData, stamp), t);
            && Readable(after, lxmData[..16], c.sha256(lxmData)) == Some(lxmData)
            && after.entries[c.sha256(lxmData)].path.received == t.now
  {
    hide TransferItems, U.Container, Stamper.ValidatePnStamp, DeliveredLocally;
    ContainerIsRead(time, lxmData, stamp);
    Stamper.PnStampRoundTrip(c, lxmData, stamp, k.minCost);
    var items := [V.Bin(lxmData + stamp)];
    assert items[1..] == [];
    assert TakenIn(c, k, n, items, t) == TakenOne(c, k, n, items[0], t);
    var data := lxmData + stamp;
    assert data[..|data| - Stamper.STAMP_SIZE] == lxmData;
  }

  // ---- The upload of the library itself -------------------------------------------------------

  /** What a node makes of bytes without a stamp: all but the last 32 of them. */
  function Cut(form: Bytes): Bytes {
    if |form| >= Stamper.STAMP_SIZE then form[..|form| - Stamper.STAMP_SIZE] else []
  }

  /** The last 32 bytes happen to be a stamp for the bytes before them, and the node stores those. */
  predicate StoresCut(c: Suite, k: Config, form: Bytes, t: Moment) {
    && |form| > Stamper.LXMF_OVERHEAD + Stamper.STAMP_SIZE
    && var cut, tail := Cut(form), form[|form| - Stamper.STAMP_SIZE..];
       && Stamper.StampValid(c, tail, k.minCost, Stamper.PnWorkblock(c, cut))
       && Storable(c, k, cut, Stamper.StampValue(c, Stamper.PnWorkblock(c, cut), tail), t)
  }

  /** Exactly what an upload without a stamp puts into the store: nothing, or the message 32 bytes
      short, under the hash of that. */
  lemma UnstampedUploadIsCut(c: Suite, k: Config, n: Node, time: nat, form: Bytes, t: Moment, id: Digest)
    requires time < V.TWO_64 && |form| < V.TWO_32 && id !in n.entries
    ensures var after := AfterTransfer(c, k, n, U.Container(time, form, []), t);
            && (id in after.entries <==> id == c.sha256(Cut(form)) && id !in n.processed && StoresCut(c, k, form, t))
            && (id in after.entries ==> Readable(after, Cut(form)[..16], id) == Some(Cut(form)))
  {
    hide TransferItems, U.Container, Stamper.StampValid, Stamper.PnWorkblock, Stamper.StampValue, DeliveredLocally;
    ContainerIsRead(time, form, []);
    assert form + [] == form;
    var items := [V.Bin(form)];
    assert items[1..] == [];
    assert TakenIn(c, k, n, items, t) == TakenOne(c, k, n, items[0], t);
    if |form| >= Stamper.STAMP_SIZE {
      assert Cut(form) + form[|form| - Stamper.STAMP_SIZE..] == form;
    }
  }

  /** So no client can fetch the message whole under any id the upload put there. */
  lemma UnstampedUploadIsNotServed(c: Suite, k: Config, n: Node, time: nat, form: Bytes, t: Moment, client: Address,
                                   id: Digest)
    requires time < V.TWO_64 && |form| < V.TWO_32 && id !in n.entries
    ensures Readable(AfterTransfer(c, k, n, U.Container(time, form, []), t), client, id) != Some(form)
  {
    hide AfterTransfer, Storable, Stamper.StampValid, Stamper.StampValue, Stamper.PnWorkblock;
    UnstampedUploadIsCut(c, k, n, time, form, t, id);
  }

  /** Whatever an application does with a message before it is sent, what `send` then uploads is
      not served whole. */
  lemma LibraryUploadIsNotServed(c: Suite, o: U.Outgoing, calls: seq<U.Call>, k: Config, n: Node, t: Moment,
                                 client: Address, id: Digest) returns (form: Bytes)
    requires o.transientId.None? && o.propagationStamp.None? && o.propagationPacked.None? && id !in n.entries
    requires var p := U.Run(c, o, calls).propagationPacked; p.Some? && |p.value| < V.TWO_32
    ensures var sent := U.Run(c, o, calls);
            && sent.transientId == Some(c.sha256(form)) && sent.m.packed.Some?
            && (exists time: U.Time, identity, random :: U.Bare(c, sent, time, form, identity, random))
            && Readable(AfterTransfer(c, k, n, sent.propagationPacked.value, t), client, id) != Some(form)
  {
    hide U.Run, AfterTransfer, Readable, U.Container;
    U.UploadCarriesNoStamp(c, o, calls);
    var sent := U.Run(c, o, calls);
    var time: U.Time, whole, identity, random :| U.Bare(c, sent, time, whole, identity, random);
    form := whole;
    ContainerIsLonger(time, form);
    UnstampedUploadIsNotServed(c, k, n, time, form, t, client, id);
  }

  lemma ContainerIsLonger(time: nat, form: Bytes)
    ensures |U.Container(time, form, [])| >= |form|
  {
  }

  /** The reader recovers the message its author packed and encrypted, under the same id. */
  lemma TransportFormIsOpened(c: Suite, m: Message, key: Secret, now: nat, draws: seq<Stamper.Stamp>, random: Bytes,
                              reader: Secret, resolver: Resolver)
    requires DecryptsOwn(c) && Packable(m) && now < V.TWO_64 && m.destinationIdentity == Some(c.public(reader))
    ensures var form := TransportForm(c, m, key, now, draws, random);
            form.Some? ==>
              && |form.value| > Stamper.LXMF_OVERHEAD && form.value[..16] == m.destinationHash
              && var got := Opened(c, reader, form.value, resolver);
                 && got.Some? && Recovered(PackCore(c, m, key, now, draws), got.value, SentStamp(c, m, now, draws))
                 && (SignaturesVerify(c) && resolver(m.sourceHash) == Some(c.public(key)) ==>
                       got.value.signatureValidated)
  {
    hide PackCore, UnpackMessage, Packable, SentStamp, PackPayload;
    MessageRoundTrip(c, m, key, now, draws, resolver);
    PackCoreSets(c, m, key, now, draws);
    var packed := PackCore(c, m, key, now, draws).packed.value;
    var form := TransportForm(c, m, key, now, draws, random);
    if form.Some? {
      var sealed := c.encrypt(c.public(reader), random, packed[DESTINATION_LENGTH..]).value;
      assert form.value == packed[..DESTINATION_LENGTH] + sealed;
      assert form.value[DESTINATION_LENGTH..] == sealed;
    }
    assert packed[..DESTINATION_LENGTH] + packed[DESTINATION_LENGTH..] == packed;
    assert packed[..16] == m.destinationHash;
  }

  // ---- From author to reader ------------------------------------------------------------------

  /** Everything the node would serve, if asked and given budget. */
  lemma {:induction false} ReadableIsServed(n: Node, client: Address, wants: seq<Digest>, id: Digest)
    requires id in wants && Readable(n, client, id).Some?
    ensures id in AllReadable(n, client, wants)
    ensures V.Bin(Readable(n, client, id).value) in DataOf(n, client, AllReadable(n, client, wants))
  {
    hide Readable;
    var rest := AllReadable(n, client, wants[1..]);
    if Readable(n, client, wants[0]).Some? {
      assert AllReadable(n, client, wants) == [wants[0]] + rest && ([wants[0]] + rest)[1..] == rest;
    } else {
      assert AllReadable(n, client, wants) == rest;
    }
    if wants[0] != id {
      ReadableIsServed(n, client, wants[1..], id);
    }
  }

  lemma AcknowledgedKeepsReadable(c: Suite, w: World, client: Address, haves: seq<Digest>, id: Digest)
    requires Sound(c, w.n, w.bare) && Readable(w.n, client, id).Some? && id !in haves
    ensures Readable(Acknowledged(w.n, client, haves), client, id) == Readable(w.n, client, id)
  {
    hide FileOf;
  }

  lemma WantedWhenMissing(client: Client, listing: seq<Digest>, id: Digest)
    requires id in listing && id !in client.has && (client.max.Some? ==> |listing| <= client.max.value)
    ensures id in Wants(client, listing) && id !in Haves(client, listing)
  {
    MissingAndPresent(client.has, listing);
  }

  /** What the fetch after a listing brings, if the budget covers what is wanted. */
  lemma FetchBrings(c: Suite, k: Config, w: World, client: Client, listing: seq<Digest>, id: Digest)
    requires Sound(c, w.n, w.bare) && IsListing(w.n, client.address, listing) && |listing| < V.TWO_32
    requires forall other :: other in listing ==> w.n.entries[other].size < V.TWO_32
    requires Readable(w.n, client.address, id).Some? && id !in client.has
    requires client.max.Some? ==> |listing| <= client.max.value
    requires -V.TWO_63 <= client.limit < V.TWO_63
    requires var left := Acknowledged(w.n, client.address, Haves(client, listing));
             BUDGET_START + Sizes(left, client.address, AllReadable(left, client.address, Wants(client, listing)))
             <= Limit(k, Some(client.limit))
    ensures var request := FetchRequest(Wants(client, listing), Haves(client, listing), client.limit);
            var got := UnpackBinList(V.Pack(Response(k, w.n, Some(client.address), request, [])));
            got.Some? && V.Bin(Readable(w.n, client.address, id).value) in got.value
  {
    hide V.Pack, V.Unpack, UnpackBinList, Response, Sound, DataOf, Readable, Served, Sizes, AllReadable, Wants, Haves,
         Acknowledged;
    var a, wants, haves := client.address, Wants(client, listing), Haves(client, listing);
    var left := Acknowledged(w.n, a, haves);
    assert id in listing by { ReadableIsListed(w.n, a, listing, id); }
    WantedWhenMissing(client, listing, id);
    WantsAndHaves(client, listing);
    FetchIsRead(c, k, w, client, wants, haves);
    SufficientBudgetServesAll(k, left, a, wants, Limit(k, Some(client.limit)), BUDGET_START);
    AcknowledgedKeepsReadable(c, w, a, haves, id);
    ReadableIsServed(left, a, wants, id);
  }

  lemma ReadableIsListed(n: Node, client: Address, listing: seq<Digest>, id: Digest)
    requires IsListing(n, client, listing) && Readable(n, client, id).Some?
    ensures id in listing
  {
  }

  /** A message from author to reader through a node: packed and encrypted by its author, uploaded
      by a client other than this library's `send` with a good stamp after it, kept through anything
      others do, listed, fetched within the budget and opened by its destination, it is the author's
      message under the author's id. */
  lemma MessageThroughNode(c: Suite, k: Config, w: World, m: Message, key: Secret, now: nat,
                           draws: seq<Stamper.Stamp>, random: Bytes, reader: Secret, resolver: Resolver, time: nat,
                           stamp: Stamper.Stamp, t: Moment, during: seq<Event>, client: Client, listing: seq<Digest>,
                           lxmData: Bytes)
    requires DecryptsOwn(c) && Packable(m) && now < V.TWO_64 && m.destinationIdentity == Some(c.public(reader))
    requires TransportForm(c, m, key, now, draws, random) == Some(lxmData)
    requires Sound(c, w.n, w.bare)
    requires time < V.TWO_64 && |lxmData| + Stamper.STAMP_SIZE < V.TWO_32
    requires k.hosting && k.minCost <= Stamper.StampValue(c, Stamper.PnWorkblock(c, lxmData), stamp)
    requires c.sha256(lxmData) !in w.n.entries && c.sha256(lxmData) !in w.n.processed
    requires |lxmData| >= 16 && !DeliveredLocally(c, k, lxmData) && forall path :: t.disk(path)
    requires client.address == m.destinationHash && c.sha256(lxmData) !in client.has
    requires client.max.Some? ==> |listing| <= client.max.value
    requires -V.TWO_63 <= client.limit < V.TWO_63
    requires var w1 := Step(c, k, w, Transfer(U.Container(time, lxmData, stamp), t));
             var w2 := Run(c, k, w1, during);
             && (forall e :: e in during ==> Foreign(client.address, e) && RepeatsNone(c, k, e, {c.sha256(lxmData)}))
             && t.now >= Cutoff(during)
             && (c.sha256(lxmData) in w1.n.entries ==>
                   forall e :: e in during ==> e != LoseFile(w1.n.entries[c.sha256(lxmData)].path))
             && IsListing(w2.n, client.address, listing) && |listing| < V.TWO_32
             && (forall other :: other in listing ==> w2.n.entries[other].size < V.TWO_32)
             && var left := Acknowledged(w2.n, client.address, Haves(client, listing));
                BUDGET_START + Sizes(left, client.address, AllReadable(left, client.address, Wants(client, listing)))
                <= Limit(k, Some(client.limit))
    ensures var w2 := Run(c, k, Step(c, k, w, Transfer(U.Container(time, lxmData, stamp), t)), during);
            var request := FetchRequest(Wants(client, listing), Haves(client, listing), client.limit);
            var got := UnpackBinList(V.Pack(Response(k, w2.n, Some(client.address), request, [])));
            && got.Some? && V.Bin(lxmData) in got.value
            && var read := Opened(c, reader, lxmData, resolver);
               && read.Some? && Recovered(PackCore(c, m, key, now, draws), read.value, SentStamp(c, m, now, draws))
               && (SignaturesVerify(c) && resolver(m.sourceHash) == Some(c.public(key)) ==>
                     read.value.signatureValidated)
  {
    hide V.Pack, UnpackBinList, Response, Sound, DataOf, Served, Sizes, AllReadable, Wants, Haves, Acknowledged,
         Opened, Recovered, PackCore, Packable, U.Container, DeliveredLocally, IsListing, Foreign, RepeatsNone, Run,
         AfterTransfer, SentStamp;
    var id, upload := c.sha256(lxmData), Transfer(U.Container(time, lxmData, stamp), t);
    var w1 := Step(c, k, w, upload);
    TransportFormIsOpened(c, m, key, now, draws, random, reader, resolver);
    TransferIsServed(c, k, w.n, time, lxmData, stamp, t);
    StepKeepsSound(c, k, w, upload);
    RunKeepsSound(c, k, w1, during);
    RunKeepsFile(c, k, w1, client.address, id, during);
    FetchBrings(c, k, Run(c, k, w1, during), client, listing, id);
  }
}

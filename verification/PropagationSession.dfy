/** A client's download session with a propagation node that serves others meanwhile
    (`run_propagation_download` in lxmf/src/router.rs), and the node's own handlers as methods. */
module PropagationSession {
  import opened Octets
  import opened Crypto
  import opened Propagation
  import V = Msgpack
  import Stamper

  // ---- Runs of the node -----------------------------------------------------------------------

  datatype Event =
    | Transfer(data: Bytes, t: Moment)
    | IngestBare(lxmData: Bytes, allowDuplicate: bool, t: Moment)
    | Get(client: Option<Address>, request: Bytes)
    | LoseFile(path: Path)
    | Expire(cutoff: nat)

  /** The node and the ids stored without a stamp. */
  datatype World = World(n: Node, bare: set<Digest>)

  function Step(c: Suite, k: Config, w: World, e: Event): World {
    match e
    case Transfer(data, t) => w.(n := AfterTransfer(c, k, w.n, data, t))
    case IngestBare(lxmData, allowDuplicate, t) =>
      World(Ingested(c, k, w.n, lxmData, 0, [], allowDuplicate, t),
        BareAfter(c, k, w.n, w.bare, lxmData, allowDuplicate, t))
    case Get(client, request) => w.(n := AfterGet(w.n, client, request))
    case LoseFile(path) => w.(n := w.n.(files := w.n.files - {path}))
    case Expire(cutoff) => w.(n := Expired(w.n, cutoff))
  }

  /** `clean_message_store`. */
  function Expired(n: Node, cutoff: nat): Node {
    var stale := set id | id in n.entries && n.entries[id].path.received < cutoff;
    n.(entries := n.entries - stale, files := n.files - (set id | id in stale :: n.entries[id].path))
  }

  /** Expiry removes exactly the entries received before the cutoff, and their files; every other entry
      stays readable as it was. */
  lemma ExpiredIsExact(c: Suite, n: Node, bare: set<Digest>, cutoff: nat, id: Digest, client: Address)
    requires Sound(c, n, bare)
    ensures var after := Expired(n, cutoff);
            && (id in after.entries <==> id in n.entries && n.entries[id].path.received >= cutoff)
            && (id in n.entries && id !in after.entries ==> n.entries[id].path !in after.files)
            && (id in after.entries ==> Readable(after, client, id) == Readable(n, client, id))
            && after.processed == n.processed
  {
    hide FileOf;
  }

  function Run(c: Suite, k: Config, w: World, events: seq<Event>): World
    decreases |events|
  {
    if events == [] then w else Run(c, k, Step(c, k, w, events[0]), events[1..])
  }

  lemma StepKeepsSound(c: Suite, k: Config, w: World, e: Event)
    requires Sound(c, w.n, w.bare)
    ensures Sound(c, Step(c, k, w, e).n, Step(c, k, w, e).bare)
  {
    match e {
      case Transfer(data, t) => TransferKeepsSound(c, k, w.n, w.bare, data, t);
      case IngestBare(lxmData, allowDuplicate, t) => BareKeepsSound(c, k, w.n, w.bare, lxmData, allowDuplicate, t);
      case Get(client, request) =>
        if client.Some? && ParseRequest(request).Fetch? {
          AcknowledgedKeepsSound(c, w.n, w.bare, client.value, ParseRequest(request).haves);
        }
      case LoseFile(_) => FewerFilesKeepSound(c, w.n, w.n.(files := w.n.files - {e.path}), w.bare);
      case Expire(_) => FewerFilesKeepSound(c, w.n, Expired(w.n, e.cutoff), w.bare);
    }
  }

  lemma FewerFilesKeepSound(c: Suite, n: Node, after: Node, bare: set<Digest>)
    requires Sound(c, n, bare) && after.processed == n.processed
    requires forall id :: id in after.entries ==> id in n.entries && after.entries[id] == n.entries[id]
    requires forall path :: path in after.files ==> path in n.files && after.files[path] == n.files[path]
    ensures Sound(c, after, bare)
  {
    hide FileOf;
  }

  /** Whatever happens to the node, every readable file stays the file of its id. */
  lemma {:induction false} RunKeepsSound(c: Suite, k: Config, w: World, events: seq<Event>)
    requires Sound(c, w.n, w.bare)
    ensures Sound(c, Run(c, k, w, events).n, Run(c, k, w, events).bare)
    decreases |events|
  {
    hide Sound, Step;
    if events != [] {
      StepKeepsSound(c, k, w, events[0]);
      RunKeepsSound(c, k, Step(c, k, w, events[0]), events[1..]);
    }
  }

  // ---- Repetitions ----------------------------------------------------------------------------

  /** The step stores these bytes again, with leave to repeat. */
  predicate Repeats(c: Suite, k: Config, e: Event, id: Digest) {
    e.IngestBare? && e.allowDuplicate && c.sha256(e.lxmData) == id && Storable(c, k, e.lxmData, 0, e.t)
  }

  predicate RepeatsNone(c: Suite, k: Config, e: Event, ids: set<Digest>) {
    e.IngestBare? ==> !Repeats(c, k, e, c.sha256(e.lxmData)) || c.sha256(e.lxmData) !in ids
  }

  /** What was seen and is not in the store enters it in a step exactly if the step takes in its
      bytes with leave to repeat, on a hosting node whose write succeeds, and they are not delivered
      locally. */
  lemma ReentersIff(c: Suite, k: Config, w: World, e: Event, id: Digest)
    requires id in w.n.processed && id !in w.n.entries
    ensures id in Step(c, k, w, e).n.entries <==> Repeats(c, k, e, id)
    ensures id in Step(c, k, w, e).n.processed
  {
    hide DeliveredLocally, ParseRequest, TakenIn;
    if e.Transfer? && TransferItems(e.data).Some? {
      TakenInKeepsGone(c, k, w.n, TransferItems(e.data).value, e.t, id);
    }
  }

  lemma {:induction false} TakenInKeepsGone(c: Suite, k: Config, n: Node, items: seq<V.Value>, t: Moment, id: Digest)
    requires id in n.processed && id !in n.entries
    ensures id in TakenIn(c, k, n, items, t).processed && id !in TakenIn(c, k, n, items, t).entries
    decreases |items|
  {
    hide DeliveredLocally, Stamper.ValidatePnStamp;
    if items != [] {
      TakenInKeepsGone(c, k, TakenOne(c, k, n, items[0], t), items[1..], t, id);
    }
  }

  /** So an acknowledged message does not come back with any later transfer, request, expiry or
      ingestion, unless its bytes are stored again with leave to repeat. */
  lemma {:induction false} GoneStaysGone(c: Suite, k: Config, w: World, events: seq<Event>, id: Digest)
    requires id in w.n.processed && id !in w.n.entries
    requires forall e :: e in events ==> !Repeats(c, k, e, id)
    ensures id !in Run(c, k, w, events).n.entries
    decreases |events|
  {
    hide Step, Repeats;
    if events != [] {
      ReentersIff(c, k, w, events[0], id);
      GoneStaysGone(c, k, Step(c, k, w, events[0]), events[1..], id);
    }
  }

  /** Taking bytes in again with leave to repeat leaves an entry without a stamp, whatever was there
      before; what is served for it loses 32 bytes of the message. */
  lemma RepeatIsBare(c: Suite, k: Config, w: World, lxmData: Bytes, t: Moment)
    requires Storable(c, k, lxmData, 0, t)
    ensures var id := c.sha256(lxmData);
            var again := Step(c, k, w, IngestBare(lxmData, true, t));
            && id in again.n.entries && id in again.bare
            && Readable(again.n, lxmData[..16], id) == Some(lxmData[..|lxmData| - Stamper.STAMP_SIZE])
  {
    hide DeliveredLocally;
    assert lxmData + [] == lxmData;
  }

  /** So an acknowledged message does come back with leave to repeat, without its stamp. */
  lemma RepeatedComesBack(c: Suite, k: Config, w: World, client: Address, ack: Bytes, lxmData: Bytes, t: Moment)
    requires Sound(c, w.n, w.bare) && Owns(w.n, client, c.sha256(lxmData))
    requires ParseRequest(ack).Fetch? && c.sha256(lxmData) in ParseRequest(ack).haves
    requires Storable(c, k, lxmData, 0, t)
    ensures var id := c.sha256(lxmData);
            var acked := Step(c, k, w, Get(Some(client), ack));
            var again := Step(c, k, acked, IngestBare(lxmData, true, t));
            id !in acked.n.entries && id in again.n.entries && id in again.bare
  {
    hide ParseRequest, Storable;
    RepeatIsBare(c, k, Step(c, k, w, Get(Some(client), ack)), lxmData, t);
  }

  // ---- Others do not touch a client's messages ------------------------------------------------

  /** Anything but the client's own requests. */
  predicate Foreign(client: Address, e: Event) {
    e.Get? ==> e.client != Some(client)
  }

  function Later(a: nat, b: nat): nat {
    if a < b then b else a
  }

  /** What was received before this time has expired. */
  function CutoffOf(e: Event): nat {
    if e.Expire? then e.cutoff else 0
  }

  function Cutoff(events: seq<Event>): nat {
    if events == [] then 0 else Later(CutoffOf(events[0]), Cutoff(events[1..]))
  }

  /** Of these ids, those seen so far are owned by the client exactly if they were before and have
      not expired: no other is taken away and none comes back. */
  ghost predicate Untouched(n: Node, after: Node, client: Address, ids: set<Digest>, cutoff: nat) {
    && n.processed <= after.processed
    && forall id :: id in ids && id in n.processed ==>
         && (Owns(after, client, id) <==> Owns(n, client, id) && n.entries[id].path.received >= cutoff)
         && (Owns(after, client, id) ==> after.entries[id] == n.entries[id])
  }

  lemma IngestedIsUntouched(c: Suite, k: Config, n: Node, client: Address, lxmData: Bytes, value: nat, stamp: Bytes,
                            allowDuplicate: bool, t: Moment, ids: set<Digest>)
    requires allowDuplicate && Storable(c, k, lxmData, value, t) ==> c.sha256(lxmData) !in ids
    ensures Untouched(n, Ingested(c, k, n, lxmData, value, stamp, allowDuplicate, t), client, ids, 0)
  {
    hide DeliveredLocally;
  }

  lemma {:induction false} TakenInIsUntouched(c: Suite, k: Config, n: Node, client: Address, items: seq<V.Value>,
                                              t: Moment, ids: set<Digest>)
    ensures Untouched(n, TakenIn(c, k, n, items, t), client, ids, 0)
    decreases |items|
  {
    hide Ingested, Stamper.ValidatePnStamp;
    if items != [] {
      if items[0].Bin? && Stamper.ValidatePnStamp(c, items[0].data, k.minCost).Some? {
        var v := Stamper.ValidatePnStamp(c, items[0].data, k.minCost).value;
        IngestedIsUntouched(c, k, n, client, v.lxmData, v.value, v.stamp, false, t, ids);
      }
      TakenInIsUntouched(c, k, TakenOne(c, k, n, items[0], t), client, items[1..], t, ids);
    }
  }

  lemma ForeignStepIsUntouched(c: Suite, k: Config, w: World, client: Address, e: Event, ids: set<Digest>)
    requires Foreign(client, e) && RepeatsNone(c, k, e, ids)
    ensures Untouched(w.n, Step(c, k, w, e).n, client, ids, CutoffOf(e))
  {
    hide Ingested, TakenIn, ParseRequest, Storable;
    match e {
      case Transfer(data, t) =>
        if TransferItems(data).Some? {
          TakenInIsUntouched(c, k, w.n, client, TransferItems(data).value, t, ids);
        }
      case IngestBare(lxmData, allowDuplicate, t) =>
        IngestedIsUntouched(c, k, w.n, client, lxmData, 0, [], allowDuplicate, t, ids);
      case _ =>
    }
  }

  lemma {:induction false} ForeignRunIsUntouched(c: Suite, k: Config, w: World, client: Address, events: seq<Event>,
                                                 ids: set<Digest>)
    requires forall e :: e in events ==> Foreign(client, e) && RepeatsNone(c, k, e, ids)
    ensures Untouched(w.n, Run(c, k, w, events).n, client, ids, Cutoff(events))
    decreases |events|
  {
    hide Step, Foreign, RepeatsNone;
    if events != [] {
      ForeignStepIsUntouched(c, k, w, client, events[0], ids);
      ForeignRunIsUntouched(c, k, Step(c, k, w, events[0]), client, events[1..], ids);
    }
  }

  /** What the node would serve for an id stays readable, byte for byte, until its file is lost. */
  lemma IngestedKeepsFile(c: Suite, k: Config, n: Node, bare: set<Digest>, client: Address, id: Digest,
                          lxmData: Bytes, value: nat, stamp: Bytes, allowDuplicate: bool, t: Moment)
    requires Sound(c, n, bare) && Readable(n, client, id).Some?
    requires allowDuplicate && Storable(c, k, lxmData, value, t) ==> c.sha256(lxmData) != id
    ensures var after := Ingested(c, k, n, lxmData, value, stamp, allowDuplicate, t);
            Readable(after, client, id) == Readable(n, client, id) && after.entries[id] == n.entries[id]
  {
    hide DeliveredLocally, FileOf;
  }

  lemma {:induction false} TakenInKeepsFile(c: Suite, k: Config, n: Node, bare: set<Digest>, client: Address,
                                            id: Digest, items: seq<V.Value>, t: Moment)
    requires Sound(c, n, bare) && Readable(n, client, id).Some?
    requires forall i :: 0 <= i < |items| ==> V.WellFormed(items[i])
    ensures var after := TakenIn(c, k, n, items, t);
            Readable(after, client, id) == Readable(n, client, id) && after.entries[id] == n.entries[id]
    decreases |items|
  {
    hide Ingested, Stamper.ValidatePnStamp, Sound, V.WellFormed;
    if items != [] {
      if items[0].Bin? && Stamper.ValidatePnStamp(c, items[0].data, k.minCost).Some? {
        var v := Stamper.ValidatePnStamp(c, items[0].data, k.minCost).value;
        IngestedKeepsFile(c, k, n, bare, client, id, v.lxmData, v.value, v.stamp, false, t);
      }
      TakenOneKeepsSound(c, k, n, bare, items[0], t);
      TakenInKeepsFile(c, k, TakenOne(c, k, n, items[0], t), bare, client, id, items[1..], t);
    }
  }

  lemma StepKeepsFile(c: Suite, k: Config, w: World, client: Address, id: Digest, e: Event)
    requires Sound(c, w.n, w.bare) && Readable(w.n, client, id).Some?
    requires Foreign(client, e) && RepeatsNone(c, k, e, {id}) && e != LoseFile(w.n.entries[id].path)
    requires w.n.entries[id].path.received >= CutoffOf(e)
    ensures var after := Step(c, k, w, e).n;
            Readable(after, client, id) == Readable(w.n, client, id) && after.entries[id] == w.n.entries[id]
  {
    hide Ingested, TakenIn, ParseRequest, Storable, FileOf;
    match e {
      case Transfer(data, t) =>
        if TransferItems(data).Some? {
          TransferIsWellFormed(data);
          TakenInKeepsFile(c, k, w.n, w.bare, client, id, TransferItems(data).value, t);
        }
      case IngestBare(lxmData, allowDuplicate, t) =>
        IngestedKeepsFile(c, k, w.n, w.bare, client, id, lxmData, 0, [], allowDuplicate, t);
      case _ =>
    }
  }

  lemma {:induction false} RunKeepsFile(c: Suite, k: Config, w: World, client: Address, id: Digest, events: seq<Event>)
    requires Sound(c, w.n, w.bare) && Readable(w.n, client, id).Some?
    requires forall e :: e in events ==>
               Foreign(client, e) && RepeatsNone(c, k, e, {id}) && e != LoseFile(w.n.entries[id].path)
    requires w.n.entries[id].path.received >= Cutoff(events)
    ensures Readable(Run(c, k, w, events).n, client, id) == Readable(w.n, client, id)
    decreases |events|
  {
    hide Step, Sound, Foreign, RepeatsNone, Trimmed;
    if events != [] {
      StepKeepsFile(c, k, w, client, id, events[0]);
      StepKeepsSound(c, k, w, events[0]);
      RunKeepsFile(c, k, Step(c, k, w, events[0]), client, id, events[1..]);
    }
  }

  /** Of these ids, those seen so far are stored with or without a stamp as they were. */
  ghost predicate SameStamps(w: World, after: World, ids: set<Digest>) {
    && w.n.processed <= after.n.processed
    && forall id :: id in ids && id in w.n.processed ==> (id in after.bare <==> id in w.bare)
  }

  lemma StepKeepsStamps(c: Suite, k: Config, w: World, e: Event, ids: set<Digest>)
    requires RepeatsNone(c, k, e, ids)
    ensures SameStamps(w, Step(c, k, w, e), ids)
  {
    hide DeliveredLocally, ParseRequest, TakenIn;
    if e.Transfer? && TransferItems(e.data).Some? {
      TakenInIsUntouched(c, k, w.n, seq(16, _ => 0), TransferItems(e.data).value, e.t, {});
    }
  }

  lemma {:induction false} RunKeepsStamps(c: Suite, k: Config, w: World, events: seq<Event>, ids: set<Digest>)
    requires forall e :: e in events ==> RepeatsNone(c, k, e, ids)
    ensures SameStamps(w, Run(c, k, w, events), ids)
    decreases |events|
  {
    hide Step, RepeatsNone;
    if events != [] {
      StepKeepsStamps(c, k, w, events[0], ids);
      RunKeepsStamps(c, k, Step(c, k, w, events[0]), events[1..], ids);
    }
  }

  // ---- Requests and responses over the wire ---------------------------------------------------

  function ListRequest(): Bytes {
    V.Pack(V.Array([V.Nil, V.Nil]))
  }

  function FetchRequest(wants: seq<Digest>, haves: seq<Digest>, limit: int): Bytes {
    V.Pack(V.Array([HashesField(wants), HashesField(haves), V.Int(limit)]))
  }

  /** `send_get_ack`. */
  function AckRequest(ids: seq<Digest>): Bytes {
    V.Pack(V.Array([V.Nil, HashesField(ids)]))
  }

  function UnpackHashList(data: Bytes): Option<seq<Digest>> {
    match V.Unpack(data)
    case Parsed(v, _) => FieldHashes(v)
    case Failed(_) => None
  }

  predicate AllBins(items: seq<V.Value>) {
    forall i :: 0 <= i < |items| ==> items[i].Bin?
  }

  function UnpackBinList(data: Bytes): Option<seq<V.Value>> {
    match V.Unpack(data)
    case Parsed(Array(items), _) => if AllBins(items) then Some(items) else None
    case _ => None
  }

  lemma HashesFieldRoundTrip(ids: seq<Digest>)
    requires |ids| < V.TWO_32
    ensures V.WellFormed(HashesField(ids)) && FieldHashes(HashesField(ids)) == Some(ids)
  {
    var items := HashesField(ids).items;
    assert forall i :: 0 <= i < |items| ==> V.WellFormed(items[i]);
    assert seq(|items|, i requires 0 <= i < |items| => items[i].data) == ids;
  }

  lemma Reread(v: V.Value)
    requires V.WellFormed(v)
    ensures V.Unpack(V.Pack(v)) == V.Parsed(v, [])
  {
    hide V.Pack, V.Unpack, V.WellFormed;
    assert V.Pack(v) + [] == V.Pack(v);
    V.RoundTrip(v, []);
  }

  /** The node reads each request as the client meant it. */
  lemma RequestsAreUnderstood(wants: seq<Digest>, haves: seq<Digest>, limit: int)
    requires |wants| < V.TWO_32 && |haves| < V.TWO_32 && -V.TWO_63 <= limit < V.TWO_63
    ensures ParseRequest(ListRequest()) == List
    ensures ParseRequest(FetchRequest(wants, haves, limit)) == Fetch(wants, haves, Some(limit))
    ensures ParseRequest(AckRequest(haves)) == Fetch([], haves, None)
  {
    hide V.Pack, V.Unpack, HashesField, FieldHashes;
    HashesFieldRoundTrip(wants);
    HashesFieldRoundTrip(haves);
    NilHashes();
    Reread(V.Array([V.Nil, V.Nil]));
    Reread(V.Array([HashesField(wants), HashesField(haves), V.Int(limit)]));
    Reread(V.Array([V.Nil, HashesField(haves)]));
    assert !HashesField(wants).Nil? && !HashesField(haves).Nil? by { FieldIsArray(wants); FieldIsArray(haves); }
  }

  /** An acknowledgement is confirmed, whatever it names. */
  lemma AckIsConfirmed(k: Config, n: Node, client: Address, ids: seq<Digest>, listing: seq<Digest>)
    requires |ids| < V.TWO_32
    ensures Response(k, n, Some(client), AckRequest(ids), listing) == V.Bool(true)
    ensures AfterGet(n, Some(client), AckRequest(ids)) == Acknowledged(n, client, ids)
  {
    hide ParseRequest, AckRequest, Acknowledged;
    RequestsAreUnderstood([], ids, 0);
  }

  lemma NilHashes()
    ensures FieldHashes(V.Nil) == Some([])
  {
  }

  lemma FieldIsArray(ids: seq<Digest>)
    ensures HashesField(ids).Array?
  {
  }

  // ---- The client -----------------------------------------------------------------------------

  /** `has` are the ids in `locally_delivered`; `limit` its own per-transfer limit, an i64. */
  datatype Client = Client(address: Address, has: set<Digest>, max: Option<nat>, retain: bool, limit: int)

  function Missing(has: set<Digest>, ids: seq<Digest>): seq<Digest> {
    if ids == [] then [] else (if ids[0] in has then [] else [ids[0]]) + Missing(has, ids[1..])
  }

  function Present(has: set<Digest>, ids: seq<Digest>): seq<Digest> {
    if ids == [] then [] else (if ids[0] in has then [ids[0]] else []) + Present(has, ids[1..])
  }

  function Wants(client: Client, ids: seq<Digest>): seq<Digest> {
    var missing := Missing(client.has, ids);
    if client.max.Some? && client.max.value < |missing| then missing[..client.max.value] else missing
  }

  function Haves(client: Client, ids: seq<Digest>): seq<Digest> {
    if client.retain then [] else Present(client.has, ids)
  }

  lemma {:induction false} MissingAndPresent(has: set<Digest>, ids: seq<Digest>)
    ensures |Missing(has, ids)| + |Present(has, ids)| == |ids|
    ensures forall id :: id in Missing(has, ids) <==> id in ids && id !in has
    ensures forall id :: id in Present(has, ids) <==> id in ids && id in has
  {
    if ids != [] {
      MissingAndPresent(has, ids[1..]);
    }
  }

  /** The client names what it holds, exactly unless it retains messages on the node, and wants the
      rest; a bound on the number takes the first of these. */
  lemma NamedAndWanted(client: Client, ids: seq<Digest>, id: Digest)
    ensures id in Haves(client, ids) <==> id in ids && id in client.has && !client.retain
    ensures id in Wants(client, ids) ==> id in ids && id !in client.has
    ensures client.max.None? || client.max.value >= |ids| ==>
              (id in Wants(client, ids) <==> id in ids && id !in client.has)
    ensures client.max.Some? ==> |Wants(client, ids)| <= client.max.value
    ensures client.max.Some? && |Wants(client, ids)| < client.max.value ==>
              (id in Wants(client, ids) <==> id in ids && id !in client.has)
  {
    MissingAndPresent(client.has, ids);
  }

  /** The loop that sorts the listing into the two requests. */
  method Choose(client: Client, ids: seq<Digest>) returns (wants: seq<Digest>, haves: seq<Digest>)
    ensures wants == Wants(client, ids) && haves == Haves(client, ids)
  {
    wants, haves := [], [];
    for i := 0 to |ids|
      invariant wants + Missing(client.has, ids[i..]) == Missing(client.has, ids)
      invariant haves + Present(client.has, ids[i..]) == Present(client.has, ids)
    {
      assert ids[i..][1..] == ids[i + 1..];
      if ids[i] in client.has {
        haves := haves + [ids[i]];
      } else {
        wants := wants + [ids[i]];
      }
    }
    if client.max.Some? && client.max.value < |wants| {
      wants := wants[..client.max.value];
    }
    if client.retain {
      haves := [];
    }
  }

  /** The ids the client computes from what it received. */
  function ReceivedIds(c: Suite, messages: seq<V.Value>): seq<Digest>
    requires AllBins(messages)
  {
    if messages == [] then [] else [c.sha256(messages[0].data)] + ReceivedIds(c, messages[1..])
  }

  /** What was stored with a stamp is served under its id. */
  lemma {:induction false} ReceivedIdsAreServedIds(c: Suite, n: Node, bare: set<Digest>, client: Address,
                                                   ids: seq<Digest>)
    requires Sound(c, n, bare)
    requires forall i :: 0 <= i < |ids| ==> Readable(n, client, ids[i]).Some? && n.entries[ids[i]].size < V.TWO_32
    ensures var data := DataOf(n, client, ids);
            && |data| == |ids| && AllBins(data) && |ReceivedIds(c, data)| == |ids|
            && (forall i :: 0 <= i < |ids| && ids[i] !in bare ==> ReceivedIds(c, data)[i] == ids[i])
            && forall i :: 0 <= i < |data| ==> V.WellFormed(data[i])
  {
    if ids != [] {
      ReceivedIdsAreServedIds(c, n, bare, client, ids[1..]);
      assert DataOf(n, client, ids) == [V.Bin(Readable(n, client, ids[0]).value)] + DataOf(n, client, ids[1..]);
    }
  }

  // ---- The session ----------------------------------------------------------------------------

  /** The node after the client's fetch, and the ids it served. */
  ghost function FetchedIds(k: Config, w: World, client: Client, wants: seq<Digest>, haves: seq<Digest>): seq<Digest> {
    ServedIds(k, w.n, client.address, Fetch(wants, haves, Some(client.limit)))
  }

  /** The hashes of what the node served, as the client computes them. */
  ghost function AckedIds(c: Suite, k: Config, w: World, client: Client, wants: seq<Digest>,
                          haves: seq<Digest>): seq<Digest>
  {
    var a := client.address;
    ReceivedIds(c, DataOf(Acknowledged(w.n, a, haves), a, FetchedIds(k, w, client, wants, haves)))
  }

  /** What the client acknowledges after a fetch: the hashes of what arrived, and what it had. It
      acknowledges nothing if it cannot read the response. */
  ghost function Receipt(c: Suite, k: Config, w: World, client: Client, wants: seq<Digest>,
                         haves: seq<Digest>): Option<seq<Digest>>
  {
    var response := V.Pack(Response(k, w.n, Some(client.address), FetchRequest(wants, haves, client.limit), []));
    match UnpackBinList(response)
    case None => None
    case Some(messages) => Some(ReceivedIds(c, messages) + haves)
  }

  /** Which of the session's messages get through: the listing, the fetch request, the response to
      it, and the acknowledgement. */
  datatype Network = Network(listed: bool, asked: bool, fetched: bool, acked: bool)

  /** `run_propagation_download` against a node that meanwhile handles `during` and `after`. */
  ghost function Session(c: Suite, k: Config, w: World, client: Client, listing: seq<Digest>, net: Network,
                         during: seq<Event>, after: seq<Event>): World
  {
    var response := V.Pack(Response(k, w.n, Some(client.address), ListRequest(), listing));
    var available := if net.listed then UnpackHashList(response) else None;
    if available.None? then w
    else
      var wants, haves := Wants(client, available.value), Haves(client, available.value);
      var before := Run(c, k, w, during);
      if wants == [] then
        if haves != [] && net.acked then Step(c, k, before, Get(Some(client.address), AckRequest(haves))) else before
      else if !net.asked then before
      else
        var fetched := Step(c, k, before, Get(Some(client.address), FetchRequest(wants, haves, client.limit)));
        var waited := Run(c, k, fetched, after);
        var receipt := if net.fetched then Receipt(c, k, before, client, wants, haves) else None;
        if receipt.Some? && net.acked then Step(c, k, waited, Get(Some(client.address), AckRequest(receipt.value)))
        else waited
  }

  /** The ids a session takes off the node: those the client named as held in a request that arrived,
      and the hashes of those served, once acknowledged. */
  ghost function Removed(c: Suite, k: Config, w: World, client: Client, listing: seq<Digest>, net: Network,
                         during: seq<Event>): set<Digest>
  {
    var wants, haves := Wants(client, listing), Haves(client, listing);
    var had := set id | id in haves;
    if !net.listed then {}
    else if wants == [] then if net.acked then had else {}
    else if !net.asked then {}
    else if !net.fetched || !net.acked then had
    else had + set id | id in AckedIds(c, k, Run(c, k, w, during), client, wants, haves)
  }

  /** What was received before this time expires in the course of a session. */
  ghost function SessionCutoff(client: Client, listing: seq<Digest>, net: Network, during: seq<Event>,
                               after: seq<Event>): nat
  {
    if !net.listed then 0
    else if Wants(client, listing) == [] || !net.asked then Cutoff(during)
    else Later(Cutoff(during), Cutoff(after))
  }

  lemma WantsAndHaves(client: Client, ids: seq<Digest>)
    ensures |Wants(client, ids)| + |Haves(client, ids)| <= |ids|
    ensures forall id :: id in Wants(client, ids) || id in Haves(client, ids) ==> id in ids
  {
    MissingAndPresent(client.has, ids);
  }

  lemma ServedIsSmall(n: Node, client: Address, haves: seq<Digest>, id: Digest)
    requires Readable(Acknowledged(n, client, haves), client, id).Some?
    requires Owns(n, client, id) ==> n.entries[id].size < V.TWO_32
    ensures id in Acknowledged(n, client, haves).entries
    ensures Acknowledged(n, client, haves).entries[id].size < V.TWO_32
  {
  }

  /** The client reads the response to its fetch as the messages the node served. */
  lemma FetchIsRead(c: Suite, k: Config, w: World, client: Client, wants: seq<Digest>, haves: seq<Digest>)
    requires Sound(c, w.n, w.bare) && wants != []
    requires |wants| + |haves| < V.TWO_32 && -V.TWO_63 <= client.limit < V.TWO_63
    requires forall id :: id in wants && Owns(w.n, client.address, id) ==> w.n.entries[id].size < V.TWO_32
    ensures var a, ids := client.address, FetchedIds(k, w, client, wants, haves);
            var data := DataOf(Acknowledged(w.n, a, haves), a, ids);
            && |ids| <= |wants| && AllBins(data) && |ReceivedIds(c, data)| == |ids|
            && (forall i :: 0 <= i < |ids| && ids[i] !in w.bare ==> ReceivedIds(c, data)[i] == ids[i])
            && UnpackBinList(V.Pack(Response(k, w.n, Some(a), FetchRequest(wants, haves, client.limit), [])))
                 == Some(data)
  {
    hide V.Pack, V.Unpack, ParseRequest, Sound, FetchRequest, Served, DataOf, Readable, Acknowledged;
    var a := client.address;
    var ids := FetchedIds(k, w, client, wants, haves);
    var left := Acknowledged(w.n, a, haves);
    RequestsAreUnderstood(wants, haves, client.limit);
    AcknowledgedKeepsSound(c, w.n, w.bare, a, haves);
    ServedFits(k, left, a, wants, Limit(k, Some(client.limit)), BUDGET_START);
    forall i | 0 <= i < |ids|
      ensures Readable(left, a, ids[i]).Some? && ids[i] in left.entries && left.entries[ids[i]].size < V.TWO_32
    {
      ServedIsSmall(w.n, a, haves, ids[i]);
    }
    ReceivedIdsAreServedIds(c, left, w.bare, a, ids);
    Reread(V.Array(DataOf(left, a, ids)));
  }

  /** The client acknowledges exactly the hashes of what the node served it, and its own; for
      messages stored with a stamp these are the ids served. */
  lemma ReceiptIsServed(c: Suite, k: Config, w: World, client: Client, wants: seq<Digest>, haves: seq<Digest>)
    requires Sound(c, w.n, w.bare) && wants != []
    requires |wants| + |haves| < V.TWO_32 && -V.TWO_63 <= client.limit < V.TWO_63
    requires forall id :: id in wants && Owns(w.n, client.address, id) ==> w.n.entries[id].size < V.TWO_32
    ensures Receipt(c, k, w, client, wants, haves) == Some(AckedIds(c, k, w, client, wants, haves) + haves)
    ensures |AckedIds(c, k, w, client, wants, haves) + haves| < V.TWO_32
    ensures (forall id :: id in wants ==> id !in w.bare) ==>
              AckedIds(c, k, w, client, wants, haves) == FetchedIds(k, w, client, wants, haves)
  {
    hide V.Pack, UnpackBinList, Response, Sound, FetchedIds, DataOf, ReceivedIds;
    FetchIsRead(c, k, w, client, wants, haves);
    var ids := FetchedIds(k, w, client, wants, haves);
    forall i | 0 <= i < |ids| ensures ids[i] in wants {
      FetchedIsWanted(k, w, client, wants, haves, i);
    }
  }

  lemma FetchedIsWanted(k: Config, w: World, client: Client, wants: seq<Digest>, haves: seq<Digest>, i: nat)
    requires i < |FetchedIds(k, w, client, wants, haves)|
    ensures FetchedIds(k, w, client, wants, haves)[i] in wants
  {
    hide Served, Acknowledged;
    ServedFits(k, Acknowledged(w.n, client.address, haves), client.address, wants, Limit(k, Some(client.limit)),
               BUDGET_START);
  }

  /** The client gets the listing the node made. */
  lemma ListingIsRead(k: Config, n: Node, client: Address, listing: seq<Digest>)
    requires |listing| < V.TWO_32
    ensures UnpackHashList(V.Pack(Response(k, n, Some(client), ListRequest(), listing))) == Some(listing)
  {
    hide V.Pack, V.Unpack, ParseRequest, ListRequest, FieldHashes, HashesField;
    RequestsAreUnderstood([], [], 0);
    HashesFieldRoundTrip(listing);
    Reread(HashesField(listing));
  }

  lemma OwnedIsProcessed(c: Suite, w: World, client: Address, id: Digest)
    requires Sound(c, w.n, w.bare) && Owns(w.n, client, id)
    ensures id in w.n.processed
  {
  }

  function Listed(listing: seq<Digest>): set<Digest> {
    set id | id in listing
  }

  /** What was listed with a stamp is still stored with it when the fetch comes. */
  lemma ListedStayStamped(c: Suite, k: Config, w: World, client: Address, listing: seq<Digest>, during: seq<Event>,
                          wants: seq<Digest>)
    requires Sound(c, w.n, w.bare) && IsListing(w.n, client, listing)
    requires forall id :: id in listing ==> id !in w.bare
    requires forall id :: id in wants ==> id in listing
    requires forall e :: e in during ==> RepeatsNone(c, k, e, Listed(listing))
    ensures forall id :: id in wants ==> id !in Run(c, k, w, during).bare
  {
    hide Run, RepeatsNone;
    RunKeepsStamps(c, k, w, during, Listed(listing));
    forall id | id in wants ensures id in w.n.processed {
      OwnedIsProcessed(c, w, client, id);
    }
  }

  /** What the client acknowledges of messages listed with a stamp is what it was served. */
  lemma StampedAreAckedAsServed(c: Suite, k: Config, w: World, client: Client, listing: seq<Digest>,
                                during: seq<Event>)
    requires Sound(c, w.n, w.bare) && IsListing(w.n, client.address, listing)
    requires |listing| < V.TWO_32 && -V.TWO_63 <= client.limit < V.TWO_63
    requires Wants(client, listing) != [] && forall other :: other in listing ==> other !in w.bare
    requires forall other :: other in listing ==> w.n.entries[other].size < V.TWO_32
    requires forall e :: e in during ==> Foreign(client.address, e) && RepeatsNone(c, k, e, Listed(listing))
    ensures var wants, haves := Wants(client, listing), Haves(client, listing);
            AckedIds(c, k, Run(c, k, w, during), client, wants, haves)
            == FetchedIds(k, Run(c, k, w, during), client, wants, haves)
  {
    hide Sound, Run, Wants, Haves, AckedIds, FetchedIds, RepeatsNone, Foreign;
    WantsAndHaves(client, listing);
    ListedStayStamped(c, k, w, client.address, listing, during, Wants(client, listing));
    RunKeepsSound(c, k, w, during);
    ListedStaySmall(c, k, w, client.address, listing, during);
    ReceiptIsServed(c, k, Run(c, k, w, during), client, Wants(client, listing), Haves(client, listing));
  }

  lemma ListedStaySmall(c: Suite, k: Config, w: World, client: Address, listing: seq<Digest>, during: seq<Event>)
    requires Sound(c, w.n, w.bare) && IsListing(w.n, client, listing)
    requires forall other :: other in listing ==> w.n.entries[other].size < V.TWO_32
    requires forall e :: e in during ==> Foreign(client, e) && RepeatsNone(c, k, e, Listed(listing))
    ensures var n := Run(c, k, w, during).n;
            forall id :: id in listing && Owns(n, client, id) ==> n.entries[id].size < V.TWO_32
  {
    hide Run, RepeatsNone, Foreign;
    ForeignRunIsUntouched(c, k, w, client, during, Listed(listing));
  }

  /** Over a whole session, with other clients, transfers, expiry, disk losses and lost responses in
      between: of the client's messages the node held at the start, exactly those that are acknowledged
      as served, named as held or expired are gone; the ones the budget or `max` left out, or the
      disk lost, stay. */
  lemma SessionRemovesExactly(c: Suite, k: Config, w: World, client: Client, listing: seq<Digest>, net: Network,
                              during: seq<Event>, after: seq<Event>, id: Digest)
    requires Sound(c, w.n, w.bare) && IsListing(w.n, client.address, listing)
    requires |listing| < V.TWO_32 && -V.TWO_63 <= client.limit < V.TWO_63
    requires forall other :: other in listing ==> w.n.entries[other].size < V.TWO_32
    requires forall e :: e in during || e in after ==>
               Foreign(client.address, e) && RepeatsNone(c, k, e, Listed(listing))
    requires Owns(w.n, client.address, id)
    ensures Owns(Session(c, k, w, client, listing, net, during, after).n, client.address, id) <==>
              && id !in Removed(c, k, w, client, listing, net, during)
              && w.n.entries[id].path.received >= SessionCutoff(client, listing, net, during, after)
  {
    hide V.Pack, V.Unpack, ParseRequest, Sound, Receipt, ListRequest, FetchRequest, AckRequest, Run, Served,
         FieldHashes, IsListing, HashesField, Wants, Haves, AckedIds, Acknowledged, RepeatsNone, Foreign;
    var a := client.address;
    var wants, haves := Wants(client, listing), Haves(client, listing);
    var before := Run(c, k, w, during);
    ListingIsRead(k, w.n, a, listing);
    WantsAndHaves(client, listing);
    ForeignRunIsUntouched(c, k, w, a, during, Listed(listing));
    OwnedIsProcessed(c, w, a, id);
    OwnedIsListed(w.n, a, listing, id);
    RequestsAreUnderstood(wants, haves, client.limit);
    AcknowledgedIsExact(before.n, a, haves, a, id);
    if wants != [] {
      var fetched := Step(c, k, before, Get(Some(a), FetchRequest(wants, haves, client.limit)));
      ListedStaySmall(c, k, w, a, listing, during);
      RunKeepsSound(c, k, w, during);
      ReceiptIsServed(c, k, before, client, wants, haves);
      ForeignRunIsUntouched(c, k, fetched, a, after, Listed(listing));
      var waited := Run(c, k, fetched, after);
      var receipt := Receipt(c, k, before, client, wants, haves).value;
      RequestsAreUnderstood([], receipt, client.limit);
      AcknowledgedIsExact(waited.n, a, receipt, a, id);
    }
  }

  /** What the client already holds, listed with everything else stored with its stamp, leaves the node
      in a session exactly if the client does not retain messages and the request that names it
      arrives: the fetch, or the acknowledgement if there is nothing to fetch. */
  lemma HeldLeavesIffNotRetained(c: Suite, k: Config, w: World, client: Client, listing: seq<Digest>, net: Network,
                                 during: seq<Event>, after: seq<Event>, id: Digest)
    requires Sound(c, w.n, w.bare) && IsListing(w.n, client.address, listing)
    requires |listing| < V.TWO_32 && -V.TWO_63 <= client.limit < V.TWO_63
    requires forall other :: other in listing ==> other !in w.bare && w.n.entries[other].size < V.TWO_32
    requires forall e :: e in during || e in after ==>
               Foreign(client.address, e) && RepeatsNone(c, k, e, Listed(listing))
    requires Owns(w.n, client.address, id) && id in client.has
    requires w.n.entries[id].path.received >= SessionCutoff(client, listing, net, during, after)
    ensures var fetches := exists other :: other in Wants(client, listing);
            Owns(Session(c, k, w, client, listing, net, during, after).n, client.address, id) <==>
              client.retain || !net.listed || (if fetches then !net.asked else !net.acked)
  {
    hide Session, Sound, Wants, Haves, Run, RepeatsNone, Foreign, AckedIds, FetchedIds, IsListing;
    SessionRemovesExactly(c, k, w, client, listing, net, during, after, id);
    assert id in listing by { OwnedIsListed(w.n, client.address, listing, id); }
    NamedAndWanted(client, listing, id);
    var wants, haves := Wants(client, listing), Haves(client, listing);
    assert wants != [] ==> wants[0] in wants;
    if wants != [] {
      StampedAreAckedAsServed(c, k, w, client, listing, during);
      var before := Run(c, k, w, during);
      forall i | 0 <= i < |FetchedIds(k, before, client, wants, haves)|
        ensures FetchedIds(k, before, client, wants, haves)[i] != id
      {
        FetchedIsWanted(k, before, client, wants, haves, i);
      }
    }
  }

  lemma OwnedIsListed(n: Node, client: Address, listing: seq<Digest>, id: Digest)
    requires IsListing(n, client, listing) && Owns(n, client, id)
    ensures id in Listed(listing)
  {
  }

  // ---- The node's handlers --------------------------------------------------------------------

  /** How many messages of a transfer carry a good enough stamp. */
  function Validated(c: Suite, k: Config, items: seq<V.Value>): nat {
    if items == [] then 0
    else (if items[0].Bin? && Stamper.ValidatePnStamp(c, items[0].data, k.minCost).Some? then 1 else 0)
         + Validated(c, k, items[1..])
  }

  function InsertedBySize(n: Node, ids: seq<Digest>, id: Digest): (r: seq<Digest>)
    requires id in n.entries && forall i :: 0 <= i < |ids| ==> ids[i] in n.entries
    ensures multiset(r) == multiset(ids) + multiset{id}
  {
    if ids == [] then [id]
    else if n.entries[id].size < n.entries[ids[0]].size then
      assert [ids[0]] + ids[1..] == ids;
      [id] + ids
    else
      assert ids == [ids[0]] + ids[1..];
      [ids[0]] + InsertedBySize(n, ids[1..], id)
  }

  ghost predicate SortedBySize(n: Node, ids: seq<Digest>) {
    && (forall i :: 0 <= i < |ids| ==> ids[i] in n.entries)
    && (forall i, j :: 0 <= i < j < |ids| ==> n.entries[ids[i]].size <= n.entries[ids[j]].size)
  }

  ghost predicate AtLeast(n: Node, ids: seq<Digest>, low: nat) {
    forall i :: 0 <= i < |ids| ==> ids[i] in n.entries && low <= n.entries[ids[i]].size
  }

  lemma {:induction false} InsertedIsSorted(n: Node, ids: seq<Digest>, id: Digest, low: nat)
    requires id in n.entries && SortedBySize(n, ids)
    requires low <= n.entries[id].size && AtLeast(n, ids, low)
    ensures SortedBySize(n, InsertedBySize(n, ids, id)) && AtLeast(n, InsertedBySize(n, ids, id), low)
  {
    if ids != [] && n.entries[id].size >= n.entries[ids[0]].size {
      InsertedIsSorted(n, ids[1..], id, n.entries[ids[0]].size);
      hide SortedBySize, AtLeast;
      SortedFromHead(n, ids[0], InsertedBySize(n, ids[1..], id), low);
    } else {
      assert AtLeast(n, ids, n.entries[id].size);
      SortedFromHead(n, id, ids, low);
    }
  }

  lemma SortedFromHead(n: Node, head: Digest, rest: seq<Digest>, low: nat)
    requires SortedBySize(n, rest) && head in n.entries && AtLeast(n, rest, n.entries[head].size)
             && low <= n.entries[head].size
    ensures SortedBySize(n, [head] + rest) && AtLeast(n, [head] + rest, low)
  {
    var all := [head] + rest;
    assert forall i :: 0 < i < |all| ==> all[i] == rest[i - 1];
  }

  class PropagationNode {
    var n: Node

    constructor ()
      ensures n == Node(map[], map[], {})
    {
      n := Node(map[], map[], {});
    }

    method HandleTransfer(c: Suite, k: Config, data: Bytes, t: Moment) returns (accepted: Option<nat>)
      modifies this
      ensures n == AfterTransfer(c, k, old(n), data, t)
      ensures accepted == match TransferItems(data) case None => None case Some(items) => Some(Validated(c, k, items))
    {
      hide Stamper.ValidatePnStamp, Ingested;
      var items := TransferItems(data);
      if items.None? {
        return None;
      }
      var count := 0;
      assert items.value[0..] == items.value;
      for i := 0 to |items.value|
        invariant TakenIn(c, k, n, items.value[i..], t) == TakenIn(c, k, old(n), items.value, t)
        invariant count + Validated(c, k, items.value[i..]) == Validated(c, k, items.value)
      {
        var item := items.value[i];
        assert items.value[i..][1..] == items.value[i + 1..];
        if item.Bin? {
          var v := Stamper.ValidatePnStamp(c, item.data, k.minCost);
          if v.Some? {
            n := Ingested(c, k, n, v.value.lxmData, v.value.value, v.value.stamp, false, t);
            count := count + 1;
          }
        }
      }
      return Some(count);
    }

    /** The list answer: the client's entries in some order of the hash table, sorted by size. */
    method MakeListing(client: Address) returns (ids: seq<Digest>)
      ensures IsListing(n, client, ids)
    {
      ids := [];
      var todo := n.entries.Keys;
      while todo != {}
        invariant todo <= n.entries.Keys
        invariant SortedBySize(n, ids)
        invariant forall id :: multiset(ids)[id] == if id !in todo && Owns(n, client, id) then 1 else 0
        decreases todo
      {
        var id :| id in todo;
        todo := todo - {id};
        if n.entries[id].destination == client {
          InsertedIsSorted(n, ids, id, 0);
          ids := InsertedBySize(n, ids, id);
        }
      }
      SingleOccurrences(ids);
      assert forall id: Digest :: id in ids <==> id in multiset(ids);
    }

    method HandleGet(k: Config, client: Option<Address>, data: Bytes) returns (response: V.Value)
      modifies this
      ensures n == AfterGet(old(n), client, data)
      ensures client.Some? && ParseRequest(data).List? ==>
                exists ids :: IsListing(old(n), client.value, ids) && response == HashesField(ids)
      ensures client.None? || !ParseRequest(data).List? ==> response == Response(k, old(n), client, data, [])
    {
      hide ParseRequest, IsListing, Acknowledged, Limit;
      if client.None? {
        return V.Int(ERROR_NO_IDENTITY);
      }
      match ParseRequest(data)
      case Invalid =>
        return V.Int(ERROR_INVALID_DATA);
      case List =>
        var ids := MakeListing(client.value);
        return HashesField(ids);
      case Fetch(wants, haves, limit) =>
        n := Acknowledged(n, client.value, haves);
        if wants == [] {
          return V.Bool(true);
        }
        var messages := Serve(k, n, client.value, wants, Limit(k, limit));
        return V.Array(messages);
    }
  }

  /** The serving loop with its running total. */
  method Serve(k: Config, n: Node, client: Address, wants: seq<Digest>, limit: nat) returns (messages: seq<V.Value>)
    ensures messages == DataOf(n, client, Served(k, n, client, wants, limit, BUDGET_START))
  {
    hide Readable, Fits;
    messages := [];
    var total: nat := BUDGET_START;
    ghost var all := DataOf(n, client, Served(k, n, client, wants, limit, BUDGET_START));
    assert wants[0..] == wants && [] + all == all;
    for i := 0 to |wants|
      invariant messages + DataOf(n, client, Served(k, n, client, wants[i..], limit, total)) == all
    {
      assert wants[i..][1..] == wants[i + 1..];
      var data := Readable(n, client, wants[i]);
      if data.Some? && Fits(k, limit, total, data.value) {
        ghost var rest := Served(k, n, client, wants[i + 1..], limit, total + |data.value| + 16);
        assert ([wants[i]] + rest)[1..] == rest;
        assert DataOf(n, client, [wants[i]] + rest) == [V.Bin(data.value)] + DataOf(n, client, rest);
        Regrouped(messages, [V.Bin(data.value)], DataOf(n, client, rest));
        total := total + |data.value| + 16;
        messages := messages + [V.Bin(data.value)];
      }
    }
  }

  lemma SingleOccurrences(ids: seq<Digest>)
    requires forall id :: multiset(ids)[id] <= 1
    ensures forall i, j :: 0 <= i < j < |ids| ==> ids[i] != ids[j]
  {
    forall i, j | 0 <= i < j < |ids| ensures ids[i] != ids[j] {
      assert ids == ids[..j] + [ids[j]] + ids[j + 1..];
      assert multiset(ids) == multiset(ids[..j]) + multiset{ids[j]} + multiset(ids[j + 1..]);
      assert multiset(ids)[ids[j]] <= 1;
      assert ids[j] !in multiset(ids[..j]);
      assert ids[..j][i] == ids[i];
    }
  }
}

/** The message store of a propagation node (lxmf/src/router.rs): transfers in, listing, fetching
    and acknowledging out. */
module Propagation {
  import opened Octets
  import opened Crypto
  import V = Msgpack
  import Stamper

  const TWO_64: int := 0x1_0000_0000_0000_0000

  /** File names are made of the id, the time of storing and the stamp value. */
  datatype Path = Path(id: Digest, received: nat, value: nat)

  datatype Entry = Entry(destination: Address, path: Path, size: nat)

  /** What a node is configured with. `local` is its own delivery destination, if it has one. */
  datatype Config = Config(
    hosting: bool,
    minCost: nat,
    transferLimit: int,
    deliveryLimit: int,
    local: Option<Local>)

  datatype Local = Local(address: Address, key: Secret)

  datatype Node = Node(entries: map<Digest, Entry>, files: map<Path, Bytes>, processed: set<Digest>)

  // ---- Storing --------------------------------------------------------------------------------

  /** `disk` says which writes succeed. */
  datatype Moment = Moment(now: nat, disk: Path -> bool)

  predicate DeliveredLocally(c: Suite, k: Config, lxmData: Bytes)
    requires |lxmData| >= 16
  {
    k.local.Some? && lxmData[..16] == k.local.value.address && c.decrypt(k.local.value.key, lxmData[16..]).Some?
  }

  /** `store_propagated`. */
  function Stored(k: Config, n: Node, id: Digest, lxmData: Bytes, value: nat, stamp: Bytes, t: Moment): Node
    requires |lxmData| >= 16
  {
    var path := Path(id, t.now, value);
    if !k.hosting || !t.disk(path) then n
    else
      var data := lxmData + stamp;
      n.(files := n.files[path := data], entries := n.entries[id := Entry(lxmData[..16], path, |data|)])
  }

  /** What `lxmf_propagation` goes on to store once it is not held back as a repetition. */
  predicate Storable(c: Suite, k: Config, lxmData: Bytes, value: nat, t: Moment) {
    && |lxmData| >= Stamper.LXMF_OVERHEAD && !DeliveredLocally(c, k, lxmData)
    && k.hosting && t.disk(Path(c.sha256(lxmData), t.now, value))
  }

  predicate Repetition(c: Suite, n: Node, lxmData: Bytes) {
    c.sha256(lxmData) in n.entries || c.sha256(lxmData) in n.processed
  }

  /** `lxmf_propagation`: a repetition is dropped, unless there is leave to repeat. */
  function Ingested(c: Suite, k: Config, n: Node, lxmData: Bytes, value: nat, stamp: Bytes, allowDuplicate: bool,
                    t: Moment): Node
  {
    var id := c.sha256(lxmData);
    if |lxmData| < Stamper.LXMF_OVERHEAD || (Repetition(c, n, lxmData) && !allowDuplicate) then n
    else
      var seen := n.(processed := n.processed + {id});
      if DeliveredLocally(c, k, lxmData) then seen else Stored(k, seen, id, lxmData, value, stamp, t)
  }

  /** The message list of a transfer, or nothing for a malformed one. */
  function TransferItems(data: Bytes): Option<seq<V.Value>> {
    match V.Unpack(data)
    case Parsed(Array(items), _) => if |items| >= 2 && items[1].Array? then Some(items[1].items) else None
    case _ => None
  }

  function TakenOne(c: Suite, k: Config, n: Node, item: V.Value, t: Moment): Node {
    if !item.Bin? then n
    else
      match Stamper.ValidatePnStamp(c, item.data, k.minCost)
      case None => n
      case Some(v) => Ingested(c, k, n, v.lxmData, v.value, v.stamp, false, t)
  }

  function TakenIn(c: Suite, k: Config, n: Node, items: seq<V.Value>, t: Moment): Node
    decreases |items|
  {
    if items == [] then n else TakenIn(c, k, TakenOne(c, k, n, items[0], t), items[1..], t)
  }

  /** `handle_propagation_transfer`. */
  function AfterTransfer(c: Suite, k: Config, n: Node, data: Bytes, t: Moment): Node {
    match TransferItems(data)
    case None => n
    case Some(items) => TakenIn(c, k, n, items, t)
  }

  // ---- Requests -------------------------------------------------------------------------------

  datatype Request = Invalid | List | Fetch(wants: seq<Digest>, haves: seq<Digest>, limit: Option<int>)

  /** `hashes_field`. */
  function HashesField(ids: seq<Digest>): V.Value {
    V.Array(seq(|ids|, i requires 0 <= i < |ids| => V.Bin(ids[i])))
  }

  predicate AllDigests(items: seq<V.Value>) {
    forall i :: 0 <= i < |items| ==> items[i].Bin? && |items[i].data| == 32
  }

  /** `field_hashes`. */
  function FieldHashes(v: V.Value): Option<seq<Digest>> {
    match v
    case Nil => Some([])
    case Array(items) =>
      if AllDigests(items) then Some(seq(|items|, i requires 0 <= i < |items| => items[i].data)) else None
    case _ => None
  }

  function ParseRequest(data: Bytes): Request {
    match V.Unpack(data)
    case Parsed(Array(parts), _) =>
      if !(2 <= |parts| <= 3) then Invalid
      else
        (match (FieldHashes(parts[0]), FieldHashes(parts[1]))
         case (Some(wants), Some(haves)) =>
           if parts[0].Nil? && parts[1].Nil? then List
           else Fetch(wants, haves, if |parts| == 3 && parts[2].Int? then Some(parts[2].i) else None)
         case _ => Invalid)
    case _ => Invalid
  }

  // ---- Listing --------------------------------------------------------------------------------

  predicate Owns(n: Node, client: Address, id: Digest) {
    id in n.entries && n.entries[id].destination == client
  }

  /** A possible answer to a list request: the client's ids, each once, smallest first. The order
      among equal sizes is whatever the hash table yields. */
  ghost predicate IsListing(n: Node, client: Address, ids: seq<Digest>) {
    && (forall id: Digest :: id in ids <==> Owns(n, client, id))
    && (forall i, j :: 0 <= i < j < |ids| ==> ids[i] != ids[j])
    && (forall i, j :: 0 <= i < j < |ids| ==> ids[i] in n.entries && ids[j] in n.entries
                                               && n.entries[ids[i]].size <= n.entries[ids[j]].size)
  }

  // ---- Fetching -------------------------------------------------------------------------------

  /** `haves` leave the store, but only the client's own. */
  function Acknowledged(n: Node, client: Address, haves: seq<Digest>): Node {
    var gone := set id | id in haves && Owns(n, client, id);
    Node(n.entries - gone, n.files - (set id | id in gone :: n.entries[id].path), n.processed)
  }

  /** `max(0) as usize * 1000`, wrapping as 64-bit arithmetic does. */
  function Scaled(limit: int): nat {
    (if limit > 0 then limit * 1000 else 0) % TWO_64
  }

  function Limit(k: Config, requested: Option<int>): nat {
    Min(Scaled(if requested.Some? then requested.value else k.deliveryLimit), Scaled(k.transferLimit))
  }

  /** The file of an entry without its last 32 bytes, if it can be read. */
  function Readable(n: Node, client: Address, id: Digest): Option<Bytes> {
    if Owns(n, client, id) && n.entries[id].path in n.files
    then Some(Trimmed(n.files[n.entries[id].path])) else None
  }

  function Trimmed(data: Bytes): Bytes {
    if |data| >= Stamper.STAMP_SIZE then data[..|data| - Stamper.STAMP_SIZE] else data
  }

  predicate Fits(k: Config, limit: nat, total: nat, data: Bytes) {
    |data| + 16 <= Scaled(k.transferLimit) && total + |data| + 16 <= limit
  }

  /** The ids served, in the order wanted; what does not fit the budget is skipped. */
  function Served(k: Config, n: Node, client: Address, wants: seq<Digest>, limit: nat, total: nat): seq<Digest> {
    if wants == [] then []
    else
      match Readable(n, client, wants[0])
      case Some(data) =>
        if Fits(k, limit, total, data)
        then [wants[0]] + Served(k, n, client, wants[1..], limit, total + |data| + 16)
        else Served(k, n, client, wants[1..], limit, total)
      case None => Served(k, n, client, wants[1..], limit, total)
  }

  function DataOf(n: Node, client: Address, ids: seq<Digest>): (data: seq<V.Value>)
    ensures forall i :: 0 <= i < |data| ==> data[i].Bin?
  {
    if ids == [] then []
    else
      (match Readable(n, client, ids[0]) case Some(data) => [V.Bin(data)] case None => [])
      + DataOf(n, client, ids[1..])
  }

  const BUDGET_START: nat := 24

  function ServedIds(k: Config, n: Node, client: Address, request: Request): seq<Digest>
    requires request.Fetch?
  {
    var after := Acknowledged(n, client, request.haves);
    Served(k, after, client, request.wants, Limit(k, request.limit), BUDGET_START)
  }

  const ERROR_NO_IDENTITY: int := 0xf0
  const ERROR_INVALID_DATA: int := 0xf4

  /** `handle_message_get`: the response. `listing` is the listing a list request would get. */
  function Response(k: Config, n: Node, client: Option<Address>, data: Bytes, listing: seq<Digest>): V.Value {
    if client.None? then V.Int(ERROR_NO_IDENTITY)
    else
      match ParseRequest(data)
      case Invalid => V.Int(ERROR_INVALID_DATA)
      case List => HashesField(listing)
      case Fetch(wants, haves, limit) =>
        if wants == [] then V.Bool(true)
        else
          var after := Acknowledged(n, client.value, haves);
          V.Array(DataOf(after, client.value, ServedIds(k, n, client.value, Fetch(wants, haves, limit))))
  }

  function AfterGet(n: Node, client: Option<Address>, data: Bytes): Node {
    if client.None? then n
    else
      match ParseRequest(data)
      case Fetch(_, haves, _) => Acknowledged(n, client.value, haves)
      case _ => n
  }

  // ---- What is stored, and what is answered ---------------------------------------------------

  /** A message long enough that was not seen before: it is delivered instead of stored exactly if it is
      for the node's own destination and decrypts with its key; else it enters the store exactly if
      the node hosts and the write succeeds, with its stamp after it. It counts as seen either way. */
  lemma NewMessageIsStoredIff(c: Suite, k: Config, n: Node, lxmData: Bytes, value: nat, stamp: Bytes,
                              allowDuplicate: bool, t: Moment)
    requires |lxmData| >= Stamper.LXMF_OVERHEAD
    requires c.sha256(lxmData) !in n.entries && c.sha256(lxmData) !in n.processed
    ensures var id, after := c.sha256(lxmData), Ingested(c, k, n, lxmData, value, stamp, allowDuplicate, t);
            var own := k.local.Some? && k.local.value.address == lxmData[..16]
              && c.decrypt(k.local.value.key, lxmData[16..]).Some?;
            var path := Path(id, t.now, value);
            && after.processed == n.processed + {id}
            && (id in after.entries <==> !own && k.hosting && t.disk(path))
            && (id in after.entries ==>
                  && after.entries == n.entries[id := Entry(lxmData[..16], path, |lxmData| + |stamp|)]
                  && after.files == n.files[path := lxmData + stamp])
            && (id !in after.entries ==> after.entries == n.entries && after.files == n.files)
  {
  }

  /** A request that is not an array of two or three parts is answered with an error and changes
      nothing, and so is anything from a client without an identity. */
  lemma OtherRequestsAreInvalid(k: Config, n: Node, client: Option<Address>, v: V.Value, listing: seq<Digest>)
    requires V.WellFormed(v)
    ensures client.None? ==>
              Response(k, n, client, V.Pack(v), listing) == V.Int(0xf0) && AfterGet(n, client, V.Pack(v)) == n
    ensures client.Some? && !(v.Array? && 2 <= |v.items| <= 3) ==>
              Response(k, n, client, V.Pack(v), listing) == V.Int(0xf4) && AfterGet(n, client, V.Pack(v)) == n
    ensures client.Some? && v.Array? && 2 <= |v.items| <= 3
            && (FieldHashes(v.items[0]).None? || FieldHashes(v.items[1]).None?) ==>
              Response(k, n, client, V.Pack(v), listing) == V.Int(0xf4) && AfterGet(n, client, V.Pack(v)) == n
  {
    hide V.Pack, V.Unpack, V.WellFormed, FieldHashes;
    V.RoundTrip(v, []);
    assert V.Pack(v) + [] == V.Pack(v);
  }

  /** Hashes are nothing, or a list of strings of 32 bytes, and nothing else. */
  lemma HashesAre(v: V.Value)
    ensures FieldHashes(v).Some? <==>
              v.Nil? || (v.Array? && forall i :: 0 <= i < |v.items| ==> v.items[i].Bin? && |v.items[i].data| == 32)
    ensures FieldHashes(v).Some? && v.Array? ==>
              |FieldHashes(v).value| == |v.items|
              && forall i :: 0 <= i < |v.items| ==> FieldHashes(v).value[i] == v.items[i].data
  {
  }

  // ---- The budget -----------------------------------------------------------------------------

  function Sizes(n: Node, client: Address, ids: seq<Digest>): nat {
    if ids == [] then 0
    else (match Readable(n, client, ids[0]) case Some(data) => |data| + 16 case None => 0) + Sizes(n, client, ids[1..])
  }

  lemma {:induction false} ServedFits(k: Config, n: Node, client: Address, wants: seq<Digest>, limit: nat, total: nat)
    ensures var ids := Served(k, n, client, wants, limit, total);
            && |ids| <= |wants|
            && (forall i :: 0 <= i < |ids| ==> ids[i] in wants && Readable(n, client, ids[i]).Some?)
            && (ids != [] ==> total + Sizes(n, client, ids) <= limit)
    decreases |wants|
  {
    if wants != [] {
      var data := Readable(n, client, wants[0]);
      if data.Some? && Fits(k, limit, total, data.value) {
        ServedFits(k, n, client, wants[1..], limit, total + |data.value| + 16);
      } else {
        ServedFits(k, n, client, wants[1..], limit, total);
      }
    }
  }

  /** The budget rule without the recursion: one more wanted id is served exactly if it can be read
      and still fits after everything served before it. */
  lemma {:induction false} ServedIsGreedy(k: Config, n: Node, client: Address, wants: seq<Digest>, last: Digest,
                                          limit: nat, total: nat)
    ensures var before := Served(k, n, client, wants, limit, total);
            var data := Readable(n, client, last);
            Served(k, n, client, wants + [last], limit, total) ==
            before + if data.Some? && Fits(k, limit, total + Sizes(n, client, before), data.value) then [last] else []
    decreases |wants|
  {
    hide Fits, Readable;
    if wants == [] {
      assert wants + [last] == [last] && [last][1..] == [];
    } else {
      assert (wants + [last])[0] == wants[0] && (wants + [last])[1..] == wants[1..] + [last];
      var data := Readable(n, client, wants[0]);
      if data.Some? && Fits(k, limit, total, data.value) {
        var rest := Served(k, n, client, wants[1..], limit, total + |data.value| + 16);
        ServedIsGreedy(k, n, client, wants[1..], last, limit, total + |data.value| + 16);
        assert ([wants[0]] + rest)[1..] == rest;
      } else {
        ServedIsGreedy(k, n, client, wants[1..], last, limit, total);
      }
    }
  }

  function AllReadable(n: Node, client: Address, wants: seq<Digest>): seq<Digest> {
    if wants == [] then []
    else (if Readable(n, client, wants[0]).Some? then [wants[0]] else []) + AllReadable(n, client, wants[1..])
  }

  /** If the budget covers everything wanted that can be read, all of it is served. */
  lemma {:induction false} SufficientBudgetServesAll(k: Config, n: Node, client: Address, wants: seq<Digest>,
                                                     limit: nat, total: nat)
    requires total + Sizes(n, client, AllReadable(n, client, wants)) <= limit <= Scaled(k.transferLimit)
    ensures Served(k, n, client, wants, limit, total) == AllReadable(n, client, wants)
    decreases |wants|
  {
    hide Readable, Scaled;
    if wants != [] {
      var data, rest := Readable(n, client, wants[0]), AllReadable(n, client, wants[1..]);
      if data.Some? {
        assert ([wants[0]] + rest)[1..] == rest;
        SufficientBudgetServesAll(k, n, client, wants[1..], limit, total + |data.value| + 16);
      } else {
        assert AllReadable(n, client, wants) == rest;
        SufficientBudgetServesAll(k, n, client, wants[1..], limit, total);
      }
    }
  }

  lemma {:induction false} PackedDataSize(n: Node, client: Address, ids: seq<Digest>)
    ensures |V.PackItems(DataOf(n, client, ids))| <= Sizes(n, client, ids)
    ensures |DataOf(n, client, ids)| <= |ids|
  {
    hide V.WriteBinLen, Readable;
    if ids != [] {
      PackedDataSize(n, client, ids[1..]);
      if Readable(n, client, ids[0]).Some? {
        assert DataOf(n, client, ids)[1..] == DataOf(n, client, ids[1..]);
      } else {
        assert DataOf(n, client, ids) == DataOf(n, client, ids[1..]);
      }
    }
  }

  /** Any response that serves a message is no longer than the client's limit and the server's. */
  lemma ResponseFitsLimits(k: Config, n: Node, client: Address, data: Bytes, listing: seq<Digest>)
    requires ParseRequest(data).Fetch? && ParseRequest(data).wants != []
    requires ServedIds(k, n, client, ParseRequest(data)) != []
    ensures |V.Pack(Response(k, n, Some(client), data, listing))| <= Limit(k, ParseRequest(data).limit)
  {
    hide V.WriteArrayLen, ParseRequest;
    var request := ParseRequest(data);
    var after := Acknowledged(n, client, request.haves);
    ServedFits(k, after, client, request.wants, Limit(k, request.limit), BUDGET_START);
    PackedDataSize(after, client, ServedIds(k, n, client, request));
  }

  lemma LimitIsBothLimits(k: Config, requested: int)
    ensures Limit(k, Some(requested)) <= if requested > 0 then requested * 1000 else 0
    ensures Limit(k, Some(requested)) <= if k.transferLimit > 0 then k.transferLimit * 1000 else 0
    ensures 0 <= requested * 1000 < TWO_64 && 0 <= k.transferLimit * 1000 < TWO_64 ==>
              Limit(k, Some(requested)) == Min(requested, k.transferLimit) * 1000
    ensures Limit(k, None) == Limit(k, Some(k.deliveryLimit))
  {
    assert forall x: nat :: x % TWO_64 <= x;
  }

  // ---- What the store holds -------------------------------------------------------------------

  /** A file belongs to its id: without the stamp it hashes to the id, and it starts with the
      destination. `bare` files were stored without a stamp and hash to the id as they are. */
  ghost predicate FileOf(c: Suite, id: Digest, e: Entry, data: Bytes, bare: bool) {
    && |data| == e.size >= 16 && data[..16] == e.destination
    && (if bare then c.sha256(data) == id
        else 16 + Stamper.STAMP_SIZE <= |data| < V.TWO_32 && c.sha256(Trimmed(data)) == id)
  }

  /** `bare` are the ids that came in without a stamp. */
  ghost predicate Sound(c: Suite, n: Node, bare: set<Digest>) {
    && n.entries.Keys <= n.processed && bare <= n.processed
    && forall id :: id in n.entries ==>
         n.entries[id].path.id == id
         && (n.entries[id].path in n.files ==> FileOf(c, id, n.entries[id], n.files[n.entries[id].path], id in bare))
  }

  lemma IngestedKeepsSound(c: Suite, k: Config, n: Node, bare: set<Digest>, lxmData: Bytes, value: nat,
                           stamp: Stamper.Stamp, t: Moment)
    requires Sound(c, n, bare) && |lxmData| + Stamper.STAMP_SIZE < V.TWO_32
    ensures Sound(c, Ingested(c, k, n, lxmData, value, stamp, false, t), bare)
  {
    hide DeliveredLocally;
    var data := lxmData + stamp;
    assert data[..|data| - Stamper.STAMP_SIZE] == lxmData;
    assert |lxmData| >= 16 ==> data[..16] == lxmData[..16];
  }

  /** The unstamped ids after taking in a message without a stamp. */
  function BareAfter(c: Suite, k: Config, n: Node, bare: set<Digest>, lxmData: Bytes, allowDuplicate: bool,
                     t: Moment): set<Digest>
  {
    if Storable(c, k, lxmData, 0, t) && (allowDuplicate || !Repetition(c, n, lxmData)) then bare + {c.sha256(lxmData)}
    else bare
  }

  lemma BareKeepsSound(c: Suite, k: Config, n: Node, bare: set<Digest>, lxmData: Bytes, allowDuplicate: bool, t: Moment)
    requires Sound(c, n, bare)
    ensures Sound(c, Ingested(c, k, n, lxmData, 0, [], allowDuplicate, t),
            BareAfter(c, k, n, bare, lxmData, allowDuplicate, t))
  {
    hide DeliveredLocally;
    assert lxmData + [] == lxmData;
  }

  lemma TakenOneKeepsSound(c: Suite, k: Config, n: Node, bare: set<Digest>, item: V.Value, t: Moment)
    requires Sound(c, n, bare) && V.WellFormed(item)
    ensures Sound(c, TakenOne(c, k, n, item, t), bare)
  {
    hide Stamper.ValidatePnStamp, Ingested, Sound;
    if item.Bin? && Stamper.ValidatePnStamp(c, item.data, k.minCost).Some? {
      var v := Stamper.ValidatePnStamp(c, item.data, k.minCost).value;
      Stamper.ValidatedIsASplit(c, item.data, k.minCost);
      IngestedKeepsSound(c, k, n, bare, v.lxmData, v.value, v.stamp, t);
    }
  }

  lemma {:induction false} TakenInKeepsSound(c: Suite, k: Config, n: Node, bare: set<Digest>, items: seq<V.Value>,
                                             t: Moment)
    requires Sound(c, n, bare) && forall i :: 0 <= i < |items| ==> V.WellFormed(items[i])
    ensures Sound(c, TakenIn(c, k, n, items, t), bare)
    decreases |items|
  {
    hide TakenOne, Sound, V.WellFormed;
    if items != [] {
      TakenOneKeepsSound(c, k, n, bare, items[0], t);
      TakenInKeepsSound(c, k, TakenOne(c, k, n, items[0], t), bare, items[1..], t);
    }
  }

  lemma TransferIsWellFormed(data: Bytes)
    requires TransferItems(data).Some?
    ensures forall i :: 0 <= i < |TransferItems(data).value| ==> V.WellFormed(TransferItems(data).value[i])
  {
    hide V.Unpack;
    V.UnpackedIsWellFormed(data);
    assert V.WellFormed(V.Unpack(data).value.items[1]);
  }

  lemma TransferKeepsSound(c: Suite, k: Config, n: Node, bare: set<Digest>, data: Bytes, t: Moment)
    requires Sound(c, n, bare)
    ensures Sound(c, AfterTransfer(c, k, n, data, t), bare)
  {
    hide TransferItems, Sound, TakenIn;
    if TransferItems(data).Some? {
      TransferIsWellFormed(data);
      TakenInKeepsSound(c, k, n, bare, TransferItems(data).value, t);
    }
  }

  lemma AcknowledgedKeepsSound(c: Suite, n: Node, bare: set<Digest>, client: Address, haves: seq<Digest>)
    requires Sound(c, n, bare)
    ensures Sound(c, Acknowledged(n, client, haves), bare)
  {
    hide FileOf;
  }

  /** Acknowledging removes exactly the client's own ids among those named. */
  lemma AcknowledgedIsExact(n: Node, client: Address, haves: seq<Digest>, other: Address, id: Digest)
    ensures Owns(Acknowledged(n, client, haves), other, id) <==> Owns(n, other, id) && !(other == client && id in haves)
    ensures Owns(Acknowledged(n, client, haves), other, id) ==>
            Acknowledged(n, client, haves).entries[id] == n.entries[id]
    ensures Acknowledged(n, client, haves).processed == n.processed
  {
  }

  /** The bytes served under an id hash to that id exactly when the entry was stored with its
      stamp: an unstamped entry loses 32 bytes of the message itself. (The two candidate byte
      strings are taken not to collide.) */
  lemma ServedHashesToIdIffStamped(c: Suite, n: Node, bare: set<Digest>, client: Address, id: Digest)
    requires Sound(c, n, bare) && Readable(n, client, id).Some?
    requires var data := n.files[n.entries[id].path]; c.sha256(Trimmed(data)) != c.sha256(data)
    ensures c.sha256(Readable(n, client, id).value) == id <==> id !in bare
  {
  }
}

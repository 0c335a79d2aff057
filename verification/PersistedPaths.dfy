/** Saving the path table and restoring it when interfaces come back (src/transport.rs,
    src/iface.rs). The table file is modelled as the value it decodes to. */
module PersistedPaths {
  import opened Octets
  import opened Crypto
  import V = Msgpack

  type U64 = n: nat | n < 0x1_0000_0000_0000_0000
  type I64 = i: int | -0x8000_0000_0000_0000 <= i < 0x8000_0000_0000_0000
  type Blob = b: Bytes | |b| == 10 witness seq(10, _ => 0)

  /** One saved path, not yet bound to a live interface. Expiry times are doubles by bit pattern. */
  datatype Path = Path(
    destination: Address,
    stableIface: Address,
    hops: Byte,
    storedUnix: U64,
    mode: Byte,
    gravity: Option<I64>,
    unresponsive: bool,
    blobs: seq<Blob>,
    announce: Bytes,
    receivedFrom: Address,
    packetHash: Digest,
    expiresUnix: Option<U64>)

  /** A path in use. */
  datatype Live = Live(
    receivedFrom: Address,
    hops: Byte,
    iface: Address,
    timestamp: int,
    unresponsive: bool,
    packetHash: Digest,
    mode: Byte,
    expiresUnix: U64,
    blobs: seq<Blob>,
    gravity: Option<I64>)

  // ---- Rows -----------------------------------------------------------------------------------

  function BlobValues(blobs: seq<Blob>): (vs: seq<V.Value>)
    ensures |vs| == |blobs| && forall k :: 0 <= k < |vs| ==> vs[k] == V.Bin(blobs[k])
  {
    if blobs == [] then [] else [V.Bin(blobs[0])] + BlobValues(blobs[1..])
  }

  /** `destination_table_row`. */
  function Row(destination: Address, stableIface: Address, hops: Byte, learned: U64, mode: Byte, gravity: Option<I64>,
               unresponsive: bool, blobs: seq<Blob>, announce: Option<Bytes>, receivedFrom: Address,
               packetHash: Digest, expires: Option<U64>): V.Value
  {
    V.Array([
      V.Bin(destination), V.Bin(stableIface), V.Int(hops), V.Int(learned), V.Int(mode),
      if gravity.Some? then V.Int(gravity.value) else V.Nil,
      V.Bool(unresponsive), V.Array(BlobValues(blobs)),
      if announce.Some? then V.Bin(announce.value) else V.Nil,
      V.Bin(receivedFrom), V.Bin(packetHash)]
      + if expires.Some? then [V.F64(expires.value)] else [])
  }

  function RowOf(p: Path): V.Value {
    Row(p.destination, p.stableIface, p.hops, p.storedUnix, p.mode, p.gravity, p.unresponsive, p.blobs,
        Some(p.announce), p.receivedFrom, p.packetHash, p.expiresUnix)
  }

  function AsU64(v: V.Value): Option<U64> {
    if v.Int? && 0 <= v.i < V.TWO_64 then Some(v.i) else None
  }

  function AsI64(v: V.Value): Option<I64> {
    if v.Int? && -V.TWO_63 <= v.i < V.TWO_63 then Some(v.i) else None
  }

  /** The position of the highest bit of a positive number. */
  function Log2(m: nat): (e: nat)
    requires m > 0
    ensures Pow2(e) <= m < 2 * Pow2(e)
  {
    if m == 1 then 0 else 1 + Log2(m / 2)
  }

  /** `as f64` of an unsigned integer: 53 significant bits, to nearest, ties to even. */
  function DoubleOf(m: nat): (bits: U64)
    requires m < V.TWO_64
    ensures bits < V.TWO_63
  {
    if m == 0 then 0
    else
      var e := Log2(m);
      HighestBit(m, e);
      if e <= 52 then (e + 1022) * TWO_52 + m * Pow2(52 - e)
      else
        var p := Pow2(e - 52);
        var q, r := m / p, m % p;
        (e + 1022) * TWO_52 + q + (if 2 * r > p || (2 * r == p && q % 2 == 1) then 1 else 0)
  }

  const TWO_52: nat := 0x10_0000_0000_0000

  lemma HighestBit(m: nat, e: nat)
    requires Pow2(e) <= m < 2 * Pow2(e) && m < V.TWO_64
    ensures e <= 63
    ensures e <= 52 ==> TWO_52 <= m * Pow2(52 - e) < 2 * TWO_52
    ensures e > 52 ==> TWO_52 <= m / Pow2(e - 52) < 2 * TWO_52
  {
    hide Pow2;
    PowersOfTwo();
    Pow2Monotone(64, e);
    if e <= 52 {
      Pow2Add(e, 52 - e);
      Scaled(m, Pow2(e), Pow2(52 - e));
    } else {
      Pow2Add(52, e - 52);
      QuotientBetween(m, Pow2(e - 52), TWO_52);
    }
  }

  lemma PowersOfTwo()
    ensures Pow2(52) == TWO_52 && Pow2(64) == V.TWO_64
  {
    hide Pow2;
    PowerOfFour();
    Pow2Add(4, 4);
    Pow2Add(8, 4);
    Pow2Add(12, 12);
    Pow2Add(24, 24);
    Pow2Add(48, 4);
    Pow2Add(52, 12);
  }

  lemma PowerOfFour()
    ensures Pow2(4) == 16
  {
  }

  lemma Scaled(m: nat, low: nat, factor: nat)
    requires low <= m < 2 * low && factor > 0
    ensures low * factor <= m * factor < 2 * (low * factor)
  {
  }

  lemma QuotientBetween(m: nat, p: nat, low: nat)
    requires p > 0 && low * p <= m < 2 * (low * p)
    ensures low <= m / p < 2 * low
  {
    var q := m / p;
    DivisionBounds(m, p);
    ProductBetween(q, p, low, m);
  }

  lemma DivisionBounds(m: nat, p: nat)
    requires p > 0
    ensures m / p * p <= m < (m / p + 1) * p
  {
    assert m == m / p * p + m % p;
  }

  lemma ProductBetween(q: nat, p: nat, low: nat, m: nat)
    requires low * p <= m < 2 * (low * p) && q * p <= m < (q + 1) * p
    ensures low <= q < 2 * low
  {
    ProductMonotone(q + 1, low, p);
    ProductMonotone(2 * low, q, p);
    Doubled(low, p);
  }

  function AsDouble(v: V.Value): Option<U64> {
    match v
    case F64(bits) => if bits < V.TWO_64 then Some(bits) else None
    case Int(i) =>
      if 0 <= i < V.TWO_64 then Some(DoubleOf(i))
      else if -V.TWO_63 <= i < 0 then Some(V.TWO_63 + DoubleOf(-i))
      else None
    case _ => None
  }

  function Low8(n: Option<U64>, otherwise: Byte): Byte {
    if n.Some? then n.value % 256 else otherwise
  }

  function ParseBlobs(vs: seq<V.Value>): seq<Blob> {
    if vs == [] then []
    else (if vs[0].Bin? && |vs[0].data| == 10 then [vs[0].data] else []) + ParseBlobs(vs[1..])
  }

  predicate IsBin(v: V.Value, n: nat) {
    v.Bin? && |v.data| == n
  }

  function ParseRow(v: V.Value): Option<Path> {
    if !v.Array? || |v.items| < 11 then None
    else
      var f := v.items;
      if !IsBin(f[0], 16) || !IsBin(f[1], 16) || !f[8].Bin? || !IsBin(f[9], 16) || !IsBin(f[10], 32) then None
      else
        Some(Path(
          f[0].data, f[1].data, Low8(AsU64(f[2]), 0), if AsU64(f[3]).Some? then AsU64(f[3]).value else 0,
          Low8(AsU64(f[4]), 1), AsI64(f[5]), if f[6].Bool? then f[6].b else false,
          if f[7].Array? then ParseBlobs(f[7].items) else [], f[8].data, f[9].data, f[10].data,
          if |f| > 11 then AsDouble(f[11]) else None))
  }

  function ParseRows(rows: seq<V.Value>): seq<Path> {
    if rows == [] then []
    else (match ParseRow(rows[0]) case Some(p) => [p] case None => []) + ParseRows(rows[1..])
  }

  /** `parse_persisted_paths`. */
  function ParseTable(file: V.Value): seq<Path> {
    if file.Array? then ParseRows(file.items) else []
  }

  lemma {:induction false} BlobsRoundTrip(blobs: seq<Blob>)
    ensures ParseBlobs(BlobValues(blobs)) == blobs
  {
    if blobs != [] {
      assert BlobValues(blobs)[1..] == BlobValues(blobs[1..]);
      BlobsRoundTrip(blobs[1..]);
    }
  }

  lemma RowItems(p: Path)
    ensures var v := RowOf(p);
            && v.Array? && |v.items| == (if p.expiresUnix.Some? then 12 else 11)
            && v.items[0] == V.Bin(p.destination) && v.items[1] == V.Bin(p.stableIface) && v.items[2] == V.Int(p.hops)
            && v.items[3] == V.Int(p.storedUnix) && v.items[4] == V.Int(p.mode)
            && v.items[5] == (if p.gravity.Some? then V.Int(p.gravity.value) else V.Nil)
            && v.items[6] == V.Bool(p.unresponsive) && v.items[7] == V.Array(BlobValues(p.blobs))
            && v.items[8] == V.Bin(p.announce) && v.items[9] == V.Bin(p.receivedFrom)
            && v.items[10] == V.Bin(p.packetHash)
            && (p.expiresUnix.Some? ==> v.items[11] == V.F64(p.expiresUnix.value))
  {
    hide BlobValues;
  }

  lemma Low8OfByte(b: Byte, otherwise: Byte)
    ensures Low8(AsU64(V.Int(b)), otherwise) == b
  {
  }

  /** A saved pending path is read back with every field unchanged. */
  lemma RowRoundTrip(p: Path)
    ensures ParseRow(RowOf(p)) == Some(p)
  {
    hide RowOf, ParseBlobs, BlobValues, Low8;
    BlobsRoundTrip(p.blobs);
    RowItems(p);
    Low8OfByte(p.hops, 0);
    Low8OfByte(p.mode, 1);
  }

  lemma {:induction false} ParseRowsAppend(a: seq<V.Value>, b: seq<V.Value>)
    ensures ParseRows(a + b) == ParseRows(a) + ParseRows(b)
  {
    hide ParseRow;
    if a == [] {
      assert a + b == b;
    } else {
      assert (a + b)[1..] == a[1..] + b;
      ParseRowsAppend(a[1..], b);
    }
  }

  // ---- Bytes ----------------------------------------------------------------------------------

  /** What the 32-bit lengths and the 63-bit integers of the shared codec can carry. */
  predicate Writable(p: Path) {
    p.storedUnix < V.TWO_63 && |p.blobs| < V.TWO_32 && |p.announce| < V.TWO_32
  }

  lemma RowIsWellFormed(p: Path)
    requires Writable(p)
    ensures V.WellFormed(RowOf(p))
  {
    hide RowOf, BlobValues;
    var v := RowOf(p);
    RowItems(p);
    assert forall k :: 0 <= k < |p.blobs| ==> V.WellFormed(BlobValues(p.blobs)[k]);
    assert V.WellFormed(v.items[7]);
    forall k | 0 <= k < |v.items| ensures V.WellFormed(v.items[k]) {
    }
  }

  function RowsOf(paths: seq<Path>): (rows: seq<V.Value>)
    ensures |rows| == |paths| && forall k :: 0 <= k < |rows| ==> rows[k] == RowOf(paths[k])
  {
    if paths == [] then [] else [RowOf(paths[0])] + RowsOf(paths[1..])
  }

  lemma {:induction false} RowsRoundTrip(paths: seq<Path>)
    ensures ParseRows(RowsOf(paths)) == paths
  {
    hide RowOf, ParseRow;
    if paths != [] {
      RowRoundTrip(paths[0]);
      assert RowsOf(paths)[1..] == RowsOf(paths[1..]);
      RowsRoundTrip(paths[1..]);
    }
  }

  lemma TableIsWellFormed(paths: seq<Path>)
    requires |paths| < V.TWO_32 && forall k :: 0 <= k < |paths| ==> Writable(paths[k])
    ensures V.WellFormed(V.Array(RowsOf(paths)))
  {
    hide RowOf, RowsOf, Writable;
    forall k | 0 <= k < |paths| ensures V.WellFormed(RowsOf(paths)[k]) {
      RowIsWellFormed(paths[k]);
    }
  }

  /** A table of paths written as bytes and read back is the same paths, field by field. */
  lemma TableBytesRoundTrip(paths: seq<Path>)
    requires |paths| < V.TWO_32 && forall k :: 0 <= k < |paths| ==> Writable(paths[k])
    ensures var r := V.Unpack(V.Pack(V.Array(RowsOf(paths)))); r.Parsed? && ParseTable(r.value) == paths
  {
    hide V.Pack, V.Unpack, V.WellFormed, RowOf, RowsOf, ParseRows, Writable;
    var file := V.Array(RowsOf(paths));
    TableIsWellFormed(paths);
    V.RoundTrip(file, []);
    assert V.Pack(file) + [] == V.Pack(file);
    RowsRoundTrip(paths);
  }

  // ---- Interfaces -----------------------------------------------------------------------------

  datatype Iface = Iface(address: Address, stableId: Address, stopped: bool)

  /** The runtime addresses of the live interfaces with a given stable id, in registration order. */
  function Owners(ifaces: seq<Iface>, id: Address): seq<Address> {
    if ifaces == [] then []
    else (if !ifaces[0].stopped && ifaces[0].stableId == id then [ifaces[0].address] else []) + Owners(ifaces[1..], id)
  }

  function LiveIds(ifaces: seq<Iface>): set<Address> {
    set k | 0 <= k < |ifaces| && !ifaces[k].stopped :: ifaces[k].stableId
  }

  /** The ids with exactly one owner, and that owner. */
  function Unique(ifaces: seq<Iface>): map<Address, Address> {
    map id | id in LiveIds(ifaces) && |Owners(ifaces, id)| == 1 :: Owners(ifaces, id)[0]
  }

  function Ambiguous(ifaces: seq<Iface>): set<Address> {
    set id | id in LiveIds(ifaces) && |Owners(ifaces, id)| != 1
  }

  lemma {:induction false} OwnersAppend(ifaces: seq<Iface>, last: Iface, id: Address)
    ensures Owners(ifaces + [last], id)
            == Owners(ifaces, id) + if !last.stopped && last.stableId == id then [last.address] else []
  {
    if ifaces == [] {
      assert ifaces + [last] == [last];
    } else {
      assert (ifaces + [last])[1..] == ifaces[1..] + [last];
      OwnersAppend(ifaces[1..], last, id);
    }
  }

  lemma {:induction false} LiveMeansOwned(ifaces: seq<Iface>, id: Address)
    ensures id in LiveIds(ifaces) <==> Owners(ifaces, id) != []
  {
    if ifaces != [] {
      LiveMeansOwned(ifaces[1..], id);
      assert forall k :: 0 < k < |ifaces| ==> ifaces[k] == ifaces[1..][k - 1];
    }
  }

  /** Every stable id of a live interface is in exactly one of the two. */
  lemma ClassifiedOnce(ifaces: seq<Iface>, id: Address)
    ensures id in LiveIds(ifaces) <==> id in Unique(ifaces) || id in Ambiguous(ifaces)
    ensures !(id in Unique(ifaces) && id in Ambiguous(ifaces))
    ensures id in Ambiguous(ifaces) <==> |Owners(ifaces, id)| >= 2
  {
    LiveMeansOwned(ifaces, id);
  }

  /** `classify_stable_ids`: count and remember the first address, then split by count. */
  method ClassifyStableIds(ifaces: seq<Iface>) returns (unique: map<Address, Address>, ambiguous: set<Address>)
    ensures unique == Unique(ifaces) && ambiguous == Ambiguous(ifaces)
  {
    hide Owners;
    var counts, first := CountOwners(ifaces);
    unique, ambiguous := map[], {};
    var todo := counts.Keys;
    while todo != {}
      invariant todo <= counts.Keys
      invariant forall id :: id in unique <==> id in counts && id !in todo && counts[id] == 1
      invariant forall id :: id in unique ==> unique[id] == first[id]
      invariant forall id :: id in ambiguous <==> id in counts && id !in todo && counts[id] != 1
      decreases todo
    {
      var id :| id in todo;
      todo := todo - {id};
      if counts[id] == 1 {
        unique := unique[id := first[id]];
      } else {
        ambiguous := ambiguous + {id};
      }
    }
  }

  /** How many live owners each id has, and the first of them. */
  ghost predicate Counted(ifaces: seq<Iface>, counts: map<Address, nat>, first: map<Address, Address>) {
    && counts.Keys == first.Keys == LiveIds(ifaces)
    && (forall id :: id in counts ==> Owners(ifaces, id) != [] && counts[id] == |Owners(ifaces, id)|)
    && (forall id :: id in counts ==> first[id] == Owners(ifaces, id)[0])
  }

  lemma NothingCounted()
    ensures Counted([], map[], map[])
  {
  }

  lemma OneMoreCounted(ifaces: seq<Iface>, last: Iface, counts: map<Address, nat>, first: map<Address, Address>)
    requires Counted(ifaces, counts, first)
    ensures var id := last.stableId;
            if last.stopped then Counted(ifaces + [last], counts, first)
            else Counted(ifaces + [last], counts[id := (if id in counts then counts[id] else 0) + 1],
                         if id in first then first else first[id := last.address])
  {
    hide Owners, LiveIds;
    CountOne(ifaces, last);
  }

  method CountOwners(ifaces: seq<Iface>) returns (counts: map<Address, nat>, first: map<Address, Address>)
    ensures Counted(ifaces, counts, first)
  {
    hide Owners, Counted, LiveIds;
    counts, first := map[], map[];
    NothingCounted();
    assert ifaces[..0] == [];
    for k := 0 to |ifaces|
      invariant Counted(ifaces[..k], counts, first)
    {
      var iface, id := ifaces[k], ifaces[k].stableId;
      OneMoreCounted(ifaces[..k], iface, counts, first);
      assert ifaces[..k + 1] == ifaces[..k] + [iface];
      if !iface.stopped {
        counts := counts[id := (if id in counts then counts[id] else 0) + 1];
        if id !in first {
          first := first[id := iface.address];
        }
      }
    }
    assert ifaces[..|ifaces|] == ifaces;
  }

  /** One more interface changes the owners of its own id only. */
  lemma CountOne(ifaces: seq<Iface>, last: Iface)
    ensures LiveIds(ifaces + [last]) == LiveIds(ifaces) + (if last.stopped then {} else {last.stableId})
    ensures forall id :: id != last.stableId || last.stopped ==> Owners(ifaces + [last], id) == Owners(ifaces, id)
    ensures !last.stopped ==> Owners(ifaces + [last], last.stableId) == Owners(ifaces, last.stableId) + [last.address]
    ensures last.stableId !in LiveIds(ifaces) ==> Owners(ifaces, last.stableId) == []
  {
    hide Owners;
    LiveMeansOwned(ifaces, last.stableId);
    forall id
      ensures Owners(ifaces + [last], id)
              == Owners(ifaces, id) + if !last.stopped && last.stableId == id then [last.address] else []
    {
      OwnersAppend(ifaces, last, id);
    }
    var all := ifaces + [last];
    assert forall k :: 0 <= k < |ifaces| ==> all[k] == ifaces[k];
    assert all[|ifaces|] == last;
  }
}

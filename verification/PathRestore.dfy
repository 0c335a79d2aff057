/** The save, load and reload steps of the persisted path table (src/transport.rs) over whole runs. */
module PathRestore {
  import opened Octets
  import opened Crypto
  import opened PersistedPaths
  import V = Msgpack

  /** `pending` is `unresolved_paths`, `loaded` is `persisted_loaded`; `file` is the saved table. */
  datatype Handler = Handler(table: map<Address, Live>, pending: Option<seq<Path>>, loaded: bool, file: Option<V.Value>)

  /** Everything a step finds around it: the interfaces and configuration, the announce cache, the
      clock's contributions, and which announces still parse and are not blackholed. */
  datatype Surroundings = Surroundings(
    ifaces: seq<Iface>,
    storage: bool,
    shared: bool,
    retransmit: bool,
    writable: bool,
    cached: Digest -> Option<Bytes>,
    learned: Live -> U64,
    timestamp: Path -> int,
    rebuilt: Path -> U64,
    mode: Byte -> Byte,
    accepts: Path -> bool)

  // ---- Saving ---------------------------------------------------------------------------------

  /** `stable_iface_map` at one address: the last live interface registered under it. */
  function StableIdOf(ifaces: seq<Iface>, address: Address): Option<Address> {
    if ifaces == [] then None
    else
      var last := ifaces[|ifaces| - 1];
      if !last.stopped && last.address == address then Some(last.stableId)
      else StableIdOf(ifaces[..|ifaces| - 1], address)
  }

  function LastBlobs(blobs: seq<Blob>): seq<Blob> {
    blobs[SaturatingSub(|blobs|, 32)..]
  }

  predicate LiveAt(i: Iface, address: Address) {
    !i.stopped && i.address == address
  }

  /** The id a live path is saved under is that of the last live interface at its address; there is
      none exactly if no live interface is there. At most 32 blobs go with it, the latest. */
  lemma {:induction false} SavedUnder(ifaces: seq<Iface>, address: Address)
    ensures var id := StableIdOf(ifaces, address);
            && (id.None? <==> forall k :: 0 <= k < |ifaces| ==> !LiveAt(ifaces[k], address))
            && (id.Some? ==> exists k :: 0 <= k < |ifaces| && LiveAt(ifaces[k], address)
                                         && id == Some(ifaces[k].stableId)
                                         && forall j :: k < j < |ifaces| ==> !LiveAt(ifaces[j], address))
  {
    if ifaces != [] {
      var front, last := ifaces[..|ifaces| - 1], |ifaces| - 1;
      SavedUnder(front, address);
      hide LiveAt;
      assert forall k :: 0 <= k < last ==> front[k] == ifaces[k];
      LastDecides(ifaces, address);
    }
  }

  lemma LastDecides(ifaces: seq<Iface>, address: Address)
    requires ifaces != []
    ensures var last := ifaces[|ifaces| - 1];
            StableIdOf(ifaces, address) ==
            if LiveAt(last, address) then Some(last.stableId) else StableIdOf(ifaces[..|ifaces| - 1], address)
  {
  }

  lemma LatestBlobs(blobs: seq<Blob>)
    ensures var kept := LastBlobs(blobs);
            |kept| == Min(32, |blobs|) && kept == blobs[|blobs| - |kept|..]
  {
  }

  function LiveRow(u: Surroundings, destination: Address, stableId: Address, e: Live): V.Value {
    Row(destination, stableId, e.hops, u.learned(e), e.mode, e.gravity, e.unresponsive, LastBlobs(e.blobs),
        u.cached(e.packetHash), e.receivedFrom, e.packetHash, Some(e.expiresUnix))
  }

  /** Rows of live paths, in the order the table yields them. */
  function LiveRows(u: Surroundings, table: map<Address, Live>, order: seq<Address>): seq<V.Value> {
    if order == [] then [] else LiveRowOf(u, table, order[0]) + LiveRows(u, table, order[1..])
  }

  function LiveRowOf(u: Surroundings, table: map<Address, Live>, destination: Address): seq<V.Value> {
    if destination !in table then []
    else
      match StableIdOf(u.ifaces, table[destination].iface)
      case None => []
      case Some(id) => [LiveRow(u, destination, id, table[destination])]
  }

  /** Rows of pending paths whose destination has no live path. */
  function PendingRows(table: map<Address, Live>, paths: seq<Path>): seq<V.Value> {
    if paths == [] then []
    else (if paths[0].destination in table then [] else [RowOf(paths[0])]) + PendingRows(table, paths[1..])
  }

  function Rows(u: Surroundings, h: Handler, order: seq<Address>): seq<V.Value> {
    LiveRows(u, h.table, order) + if h.pending.Some? then PendingRows(h.table, h.pending.value) else []
  }

  predicate Saves(u: Surroundings) {
    u.storage && !u.shared && u.writable
  }

  /** `persist_handler`, as far as the path table is concerned. */
  function Saved(u: Surroundings, h: Handler, order: seq<Address>): Handler {
    if Saves(u) then h.(file := Some(V.Array(Rows(u, h, order)))) else h
  }

  // ---- Loading --------------------------------------------------------------------------------

  function RestoredEntry(u: Surroundings, p: Path, iface: Address): Live {
    Live(p.receivedFrom, p.hops, iface, u.timestamp(p), p.unresponsive, p.packetHash, u.mode(p.mode),
         if p.expiresUnix.Some? then p.expiresUnix.value else u.rebuilt(p), p.blobs, p.gravity)
  }

  /** Paths whose stable id no live interface has. */
  function Waiting(ifaces: seq<Iface>, paths: seq<Path>): seq<Path> {
    if paths == [] then [] else WaitingOne(ifaces, paths[0]) + Waiting(ifaces, paths[1..])
  }

  function WaitingOne(ifaces: seq<Iface>, p: Path): seq<Path> {
    if p.stableIface in LiveIds(ifaces) then [] else [p]
  }

  function Restored(u: Surroundings, table: map<Address, Live>, paths: seq<Path>): map<Address, Live>
    decreases |paths|
  {
    if paths == [] then table else Restored(u, RestoredOne(u, table, paths[0]), paths[1..])
  }

  function RestoredOne(u: Surroundings, table: map<Address, Live>, p: Path): map<Address, Live> {
    if p.stableIface in Unique(u.ifaces) && Accepts(u, p)
    then table[p.destination := RestoredEntry(u, p, Unique(u.ifaces)[p.stableIface])] else table
  }

  /** The pending paths, read from the file if that has not happened yet. */
  function ToRestore(u: Surroundings, h: Handler): seq<Path> {
    match (h.pending, h.file)
    case (Some(paths), _) => paths
    case (None, Some(file)) => ParseTable(file)
    case (None, None) => []
  }

  /** Whether a load gets as far as going through the paths. */
  predicate Scans(u: Surroundings, h: Handler) {
    !h.loaded && u.storage && !u.shared && LiveIds(u.ifaces) != {} && u.retransmit
  }

  /** `load_persisted_state`. */
  function Loaded(u: Surroundings, h: Handler): Handler {
    if h.loaded then h
    else if !u.storage || u.shared then h.(loaded := true)
    else if LiveIds(u.ifaces) == {} then h
    else if !u.retransmit then h.(loaded := true)
    else
      var paths := ToRestore(u, h);
      var waiting := Waiting(u.ifaces, paths);
      var table := Restored(u, h.table, paths);
      if waiting == [] then Handler(table, None, true, h.file) else Handler(table, Some(waiting), h.loaded, h.file)
  }

  /** The public reload: forget what was read, then load. */
  function Reloaded(u: Surroundings, h: Handler): Handler {
    Loaded(u, h.(loaded := false, pending := None))
  }

  class PathHandler {
    var h: Handler

    constructor (file: Option<V.Value>)
      ensures h == Handler(map[], None, false, file)
    {
      h := Handler(map[], None, false, file);
    }

    method Save(u: Surroundings, order: seq<Address>)
      modifies this
      ensures h == Saved(u, old(h), order)
    {
      if !u.storage || u.shared {
        return;
      }
      var rows := CollectLive(u, h.table, order);
      if h.pending.Some? {
        var more := CollectPending(h.table, h.pending.value);
        rows := rows + more;
      } else {
        assert rows + [] == rows;
      }
      if u.writable {
        h := h.(file := Some(V.Array(rows)));
      }
    }

    method Load(u: Surroundings)
      modifies this
      ensures h == Loaded(u, old(h))
    {
      hide ToRestore, Restored, Waiting, Unique, Ambiguous, LiveIds;
      if h.loaded {
        return;
      }
      if !u.storage || u.shared {
        h := h.(loaded := true);
        return;
      }
      var unique, ambiguous := ClassifyStableIds(u.ifaces);
      EveryIdIsClassified(u.ifaces);
      if unique == map[] && ambiguous == {} {
        return;
      }
      if !u.retransmit {
        h := h.(loaded := true);
        return;
      }
      var table, waiting := RestoreAll(u, h.table, ToRestore(u, h), unique, ambiguous);
      h := if waiting == [] then Handler(table, None, true, h.file)
        else Handler(table, Some(waiting), h.loaded, h.file);
    }

    method Reload(u: Surroundings)
      modifies this
      ensures h == Reloaded(u, old(h))
    {
      h := h.(loaded := false, pending := None);
      Load(u);
    }
  }

  method CollectLive(u: Surroundings, table: map<Address, Live>, order: seq<Address>) returns (rows: seq<V.Value>)
    ensures rows == LiveRows(u, table, order)
  {
    hide StableIdOf, LiveRow;
    rows := [];
    assert order[0..] == order;
    for i := 0 to |order|
      invariant rows + LiveRows(u, table, order[i..]) == LiveRows(u, table, order)
    {
      assert order[i..][1..] == order[i + 1..];
      assert LiveRows(u, table, order[i..]) == LiveRowOf(u, table, order[i]) + LiveRows(u, table, order[i + 1..]);
      Regrouped(rows, LiveRowOf(u, table, order[i]), LiveRows(u, table, order[i + 1..]));
      if order[i] in table {
        var id := StableIdOf(u.ifaces, table[order[i]].iface);
        if id.Some? {
          rows := rows + [LiveRow(u, order[i], id.value, table[order[i]])];
        }
      }
    }
  }

  method CollectPending(table: map<Address, Live>, paths: seq<Path>) returns (rows: seq<V.Value>)
    ensures rows == PendingRows(table, paths)
  {
    hide RowOf;
    rows := [];
    assert paths[0..] == paths;
    for i := 0 to |paths|
      invariant rows + PendingRows(table, paths[i..]) == PendingRows(table, paths)
    {
      assert paths[i..][1..] == paths[i + 1..];
      var more := if paths[i].destination in table then [] else [RowOf(paths[i])];
      Regrouped(rows, more, PendingRows(table, paths[i + 1..]));
      rows := rows + more;
    }
  }

  /** The loop of `load_persisted_state`: ambiguous ids are skipped, unknown ids wait. */
  method RestoreAll(u: Surroundings, before: map<Address, Live>, paths: seq<Path>, unique: map<Address, Address>,
                    ambiguous: set<Address>)
    returns (table: map<Address, Live>, waiting: seq<Path>)
    requires unique == Unique(u.ifaces) && ambiguous == Ambiguous(u.ifaces)
    ensures table == Restored(u, before, paths) && waiting == Waiting(u.ifaces, paths)
  {
    hide RestoredOne, Restored, Waiting, Unique, Ambiguous, LiveIds;
    table, waiting := before, [];
    assert paths[0..] == paths && [] + Waiting(u.ifaces, paths) == Waiting(u.ifaces, paths);
    for i := 0 to |paths|
      invariant Restored(u, table, paths[i..]) == Restored(u, before, paths)
      invariant waiting + Waiting(u.ifaces, paths[i..]) == Waiting(u.ifaces, paths)
    {
      RestoredHead(u, table, paths[i..]);
      assert paths[i..][1..] == paths[i + 1..];
      Regrouped(waiting, WaitingOne(u.ifaces, paths[i]), Waiting(u.ifaces, paths[i + 1..]));
      table, waiting := RestoreOne(u, table, waiting, paths[i], unique, ambiguous);
    }
    assert paths[|paths|..] == [];
    NothingRestored(u, table);
  }

  lemma RestoredHead(u: Surroundings, table: map<Address, Live>, paths: seq<Path>)
    requires paths != []
    ensures Restored(u, table, paths) == Restored(u, RestoredOne(u, table, paths[0]), paths[1..])
    ensures Waiting(u.ifaces, paths) == WaitingOne(u.ifaces, paths[0]) + Waiting(u.ifaces, paths[1..])
  {
    hide RestoredOne, WaitingOne;
  }

  lemma NothingRestored(u: Surroundings, table: map<Address, Live>)
    ensures Restored(u, table, []) == table && Waiting(u.ifaces, []) == []
  {
  }

  method RestoreOne(u: Surroundings, before: map<Address, Live>, sofar: seq<Path>, p: Path,
                    unique: map<Address, Address>, ambiguous: set<Address>)
    returns (table: map<Address, Live>, waiting: seq<Path>)
    requires unique == Unique(u.ifaces) && ambiguous == Ambiguous(u.ifaces)
    ensures table == RestoredOne(u, before, p)
    ensures waiting == sofar + WaitingOne(u.ifaces, p)
  {
    hide Unique, Ambiguous, LiveIds;
    EveryIdIsClassified(u.ifaces);
    table, waiting := before, sofar;
    if p.stableIface in ambiguous {
      return;
    }
    if p.stableIface !in unique {
      waiting := waiting + [p];
      return;
    }
    if Accepts(u, p) {
      table := table[p.destination := RestoredEntry(u, p, unique[p.stableIface])];
    }
  }

  predicate Accepts(u: Surroundings, p: Path) {
    u.accepts(p)
  }

  lemma EveryIdIsClassified(ifaces: seq<Iface>)
    ensures forall id :: id in LiveIds(ifaces) <==> id in Unique(ifaces) || id in Ambiguous(ifaces)
    ensures forall id :: !(id in Unique(ifaces) && id in Ambiguous(ifaces))
    ensures LiveIds(ifaces) == {} <==> Unique(ifaces) == map[] && Ambiguous(ifaces) == {}
  {
    assert forall id :: id in LiveIds(ifaces) <==> id in Unique(ifaces) || id in Ambiguous(ifaces);
  }
}

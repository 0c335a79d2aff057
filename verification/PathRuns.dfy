/** Persisted paths are not lost: what survives any run of saves, loads and reloads. */
module PathRuns {
  import opened Octets
  import opened Crypto
  import opened PersistedPaths
  import opened PathRestore
  import V = Msgpack

  datatype Event =
    | SaveEvent(u: Surroundings, order: seq<Address>)
    | LoadEvent(u: Surroundings)
    | ReloadEvent(u: Surroundings)
    | LearnEvent(destination: Address, entry: Live)
    | ForgetEvent(destination: Address)

  /** The hash table yields every destination once, in some order. */
  ghost predicate IsOrder(h: Handler, order: seq<Address>) {
    (forall i, j :: 0 <= i < j < |order| ==> order[i] != order[j]) && forall d :: d in order <==> d in h.table
  }

  /** A save in an order that is none cannot happen and is a stutter. */
  ghost function Step(h: Handler, e: Event): Handler {
    match e
    case SaveEvent(u, order) => if IsOrder(h, order) then Saved(u, h, order) else h
    case LoadEvent(u) => Loaded(u, h)
    case ReloadEvent(u) => Reloaded(u, h)
    case LearnEvent(destination, entry) => h.(table := h.table[destination := entry])
    case ForgetEvent(destination) => h.(table := h.table - {destination})
  }

  ghost function Run(h: Handler, events: seq<Event>): Handler
    decreases |events|
  {
    if events == [] then h else Run(Step(h, events[0]), events[1..])
  }

  // ---- Where a path is kept -------------------------------------------------------------------

  ghost predicate FileHas(h: Handler, p: Path) {
    h.file.Some? && p in ParseTable(h.file.value)
  }

  /** The path is in the saved table, and among the pending paths if those have been read. */
  ghost predicate Held(h: Handler, p: Path) {
    FileHas(h, p) && (h.pending.Some? ==> p in h.pending.value)
  }

  lemma {:induction false} PendingRowsHold(table: map<Address, Live>, paths: seq<Path>, p: Path)
    requires p in paths && p.destination !in table
    ensures p in ParseRows(PendingRows(table, paths))
  {
    hide RowOf, ParseRow;
    RowRoundTrip(paths[0]);
    if paths[0] != p {
      PendingRowsHold(table, paths[1..], p);
    }
    var rest := PendingRows(table, paths[1..]);
    if paths[0].destination in table {
      assert PendingRows(table, paths) == rest;
    } else {
      assert PendingRows(table, paths) == [RowOf(paths[0])] + rest;
      assert ([RowOf(paths[0])] + rest)[1..] == rest;
    }
  }

  lemma {:induction false} WaitingHolds(ifaces: seq<Iface>, paths: seq<Path>, p: Path)
    ensures p in Waiting(ifaces, paths) <==> p in paths && p.stableIface !in LiveIds(ifaces)
  {
    hide LiveIds;
    if paths != [] {
      WaitingHolds(ifaces, paths[1..], p);
    }
  }

  lemma SaveKeepsHeld(u: Surroundings, h: Handler, order: seq<Address>, p: Path)
    requires Held(h, p) && (Saves(u) ==> h.pending.Some? && p.destination !in h.table)
    ensures Held(Saved(u, h, order), p)
  {
    hide LiveRows, PendingRows, ParseRows;
    if Saves(u) {
      PendingRowsHold(h.table, h.pending.value, p);
      ParseRowsAppend(LiveRows(u, h.table, order), PendingRows(h.table, h.pending.value));
    }
  }

  // ---- When it is lost ------------------------------------------------------------------------

  lemma {:induction false} LiveRowsAreLive(u: Surroundings, table: map<Address, Live>, order: seq<Address>, p: Path)
    requires p in ParseRows(LiveRows(u, table, order))
    ensures p.destination in table
  {
    hide StableIdOf;
    if order != [] {
      var rest := LiveRows(u, table, order[1..]);
      if order[0] in table && StableIdOf(u.ifaces, table[order[0]].iface).Some? {
        var row := LiveRow(u, order[0], StableIdOf(u.ifaces, table[order[0]].iface).value, table[order[0]]);
        assert LiveRows(u, table, order) == [row] + rest && ([row] + rest)[1..] == rest;
        LiveRowDestination(u, order[0], StableIdOf(u.ifaces, table[order[0]].iface).value, table[order[0]]);
      } else {
        assert LiveRows(u, table, order) == rest;
      }
      if p in ParseRows(rest) {
        LiveRowsAreLive(u, table, order[1..], p);
      }
    }
  }

  lemma LiveRowDestination(u: Surroundings, destination: Address, id: Address, e: Live)
    ensures ParseRow(LiveRow(u, destination, id, e)).Some? ==>
              ParseRow(LiveRow(u, destination, id, e)).value.destination == destination
  {
    hide BlobValues, ParseBlobs, LastBlobs;
    assert LiveRow(u, destination, id, e).items[0] == V.Bin(destination);
  }

  /** For a held path with no live path to its destination, a save keeps it exactly when the table
      has been read: the guard of the branch that writes pending rows. */
  lemma SaveKeepsIffRead(u: Surroundings, h: Handler, order: seq<Address>, p: Path)
    requires Held(h, p) && Saves(u) && p.destination !in h.table
    ensures Held(Saved(u, h, order), p) <==> h.pending.Some?
    ensures FileHas(Saved(u, h, order), p) <==> h.pending.Some?
  {
    hide LiveRows, ParseRows;
    if h.pending.Some? {
      SaveKeepsHeld(u, h, order, p);
    } else {
      var rows := LiveRows(u, h.table, order);
      assert rows + [] == rows;
      if p in ParseRows(rows) {
        LiveRowsAreLive(u, h.table, order, p);
      }
    }
  }

  // ---- Restoring ------------------------------------------------------------------------------

  ghost predicate DistinctPaths(paths: seq<Path>) {
    forall i, j :: 0 <= i < j < |paths| ==> paths[i].destination != paths[j].destination
  }

  /** A destination none of the paths has is left alone. */
  lemma {:induction false} RestoredElsewhere(u: Surroundings, table: map<Address, Live>, paths: seq<Path>,
                                             destination: Address)
    requires forall k :: 0 <= k < |paths| ==> paths[k].destination != destination
    ensures destination in Restored(u, table, paths) <==> destination in table
    ensures destination in table ==> Restored(u, table, paths)[destination] == table[destination]
    decreases |paths|
  {
    hide Unique, RestoredEntry, Accepts;
    if paths != [] {
      RestoredElsewhere(u, RestoredOne(u, table, paths[0]), paths[1..], destination);
    }
  }

  /** A path that is read is put into the table exactly if one live interface owns its id and its
      announce is still accepted, bound to that owner and with its fields; otherwise the table
      entry of its destination does not change. */
  lemma {:induction false} RestoresExactly(u: Surroundings, table: map<Address, Live>, paths: seq<Path>, k: nat)
    requires DistinctPaths(paths) && k < |paths|
    ensures var p, after := paths[k], Restored(u, table, paths);
            if |Owners(u.ifaces, p.stableIface)| == 1 && Accepts(u, p)
            then p.destination in after
                 && after[p.destination] == RestoredEntry(u, p, Owners(u.ifaces, p.stableIface)[0])
            else (p.destination in after <==> p.destination in table)
                 && (p.destination in table ==> after[p.destination] == table[p.destination])
    decreases |paths|
  {
    hide Owners, RestoredEntry, Accepts;
    var next := RestoredOne(u, table, paths[0]);
    if k == 0 {
      RestoredElsewhere(u, next, paths[1..], paths[0].destination);
      LiveMeansOwned(u.ifaces, paths[0].stableIface);
    } else {
      RestoresExactly(u, next, paths[1..], k - 1);
      assert paths[k] == paths[1..][k - 1];
    }
  }

  // ---- No destination twice -------------------------------------------------------------------

  function RowDestination(v: V.Value): Option<Bytes> {
    if v.Array? && |v.items| > 0 && v.items[0].Bin? then Some(v.items[0].data) else None
  }

  ghost predicate DistinctRows(rows: seq<V.Value>) {
    && (forall i :: 0 <= i < |rows| ==> RowDestination(rows[i]).Some?)
    && (forall i, j :: 0 <= i < j < |rows| ==> RowDestination(rows[i]) != RowDestination(rows[j]))
  }

  lemma {:induction false} LiveRowsAreDistinct(u: Surroundings, table: map<Address, Live>, order: seq<Address>)
    requires forall i, j :: 0 <= i < j < |order| ==> order[i] != order[j]
    ensures DistinctRows(LiveRows(u, table, order)) && RowsAmong(LiveRows(u, table, order), order, table)
  {
    hide StableIdOf, LiveRow, LiveRowOf, RowDestination, DistinctRows, RowsAmong;
    if order == [] {
      NoRows(table);
    } else {
      LiveRowsAreDistinct(u, table, order[1..]);
      LiveRowOfHead(u, table, order[0]);
      AddedRow(LiveRowOf(u, table, order[0]), LiveRows(u, table, order[1..]), order, table);
    }
  }

  predicate IsAmong(d: Option<Bytes>, order: seq<Address>, table: map<Address, Live>) {
    d.Some? && d.value in order && d.value in table
  }

  ghost predicate RowsAmong(rows: seq<V.Value>, order: seq<Address>, table: map<Address, Live>) {
    forall k :: 0 <= k < |rows| ==> IsAmong(RowDestination(rows[k]), order, table)
  }

  lemma NoRows(table: map<Address, Live>)
    ensures DistinctRows([]) && RowsAmong([], [], table)
  {
  }

  lemma LiveRowOfHead(u: Surroundings, table: map<Address, Live>, d: Address)
    ensures var row := LiveRowOf(u, table, d);
            row == [] || (|row| == 1 && RowDestination(row[0]) == Some(d) && d in table)
  {
    hide StableIdOf, LiveRow, RowDestination;
    if d in table && StableIdOf(u.ifaces, table[d].iface).Some? {
      LiveRowHead(u, d, StableIdOf(u.ifaces, table[d].iface).value, table[d]);
    }
  }

  /** At most one row for the first destination, before rows for others. */
  lemma AddedRow(row: seq<V.Value>, rest: seq<V.Value>, order: seq<Address>, table: map<Address, Live>)
    requires order != [] && forall j :: 0 < j < |order| ==> order[0] != order[j]
    requires row == [] || (|row| == 1 && RowDestination(row[0]) == Some(order[0]) && order[0] in table)
    requires DistinctRows(rest) && RowsAmong(rest, order[1..], table)
    ensures DistinctRows(row + rest) && RowsAmong(row + rest, order, table)
  {
    hide RowDestination, DistinctRows;
    if row == [] {
      assert row + rest == rest;
    } else {
      forall k | 0 <= k < |rest| ensures RowDestination(rest[k]) != RowDestination(row[0]) {}
      ConsIsDistinct(row[0], rest);
      assert row + rest == [row[0]] + rest;
    }
    forall k | 0 <= k < |row + rest|
      ensures IsAmong(RowDestination((row + rest)[k]), order, table)
    {
      if k >= |row| {
        assert (row + rest)[k] == rest[k - |row|];
      }
    }
  }

  lemma LiveRowHead(u: Surroundings, destination: Address, id: Address, e: Live)
    ensures RowDestination(LiveRow(u, destination, id, e)) == Some(destination)
  {
    hide BlobValues, LastBlobs;
  }

  lemma ConsIsDistinct(row: V.Value, rest: seq<V.Value>)
    requires DistinctRows(rest) && RowDestination(row).Some?
    requires forall k :: 0 <= k < |rest| ==> RowDestination(rest[k]) != RowDestination(row)
    ensures DistinctRows([row] + rest)
  {
    var all := [row] + rest;
    assert forall k :: 0 < k < |all| ==> all[k] == rest[k - 1];
  }

  lemma {:induction false} PendingRowsAreDistinct(table: map<Address, Live>, paths: seq<Path>)
    requires DistinctPaths(paths)
    ensures DistinctRows(PendingRows(table, paths))
    ensures forall k :: 0 <= k < |PendingRows(table, paths)| ==>
              RowDestination(PendingRows(table, paths)[k]).value !in table
              && exists i :: 0 <= i < |paths|
                   && paths[i].destination == RowDestination(PendingRows(table, paths)[k]).value
  {
    hide RowOf;
    if paths != [] {
      PendingRowsAreDistinct(table, paths[1..]);
      var rest := PendingRows(table, paths[1..]);
      RowHead(paths[0]);
      forall k | 0 <= k < |rest|
        ensures exists i :: 1 <= i < |paths| && paths[i].destination == RowDestination(rest[k]).value
      {
        var i :| 0 <= i < |paths[1..]| && paths[1..][i].destination == RowDestination(rest[k]).value;
        assert paths[i + 1] == paths[1..][i];
      }
      if paths[0].destination in table {
        assert PendingRows(table, paths) == rest;
      } else {
        assert PendingRows(table, paths) == [RowOf(paths[0])] + rest;
        ConsIsDistinct(RowOf(paths[0]), rest);
      }
    }
  }

  lemma RowHead(p: Path)
    ensures RowDestination(RowOf(p)) == Some(p.destination)
  {
    hide BlobValues;
  }

  /** A saved table never has two rows for one destination, if the pending paths had none. */
  lemma SavedRowsAreDistinct(u: Surroundings, h: Handler, order: seq<Address>)
    requires IsOrder(h, order) && (h.pending.Some? ==> DistinctPaths(h.pending.value))
    ensures DistinctRows(Rows(u, h, order))
  {
    hide LiveRows, PendingRows, RowDestination;
    LiveRowsAreDistinct(u, h.table, order);
    if h.pending.Some? {
      PendingRowsAreDistinct(h.table, h.pending.value);
    }
  }

  lemma {:induction false} ParsedRowsAreDistinct(rows: seq<V.Value>)
    requires DistinctRows(rows)
    ensures DistinctPaths(ParseRows(rows))
    ensures forall p :: p in ParseRows(rows) ==>
              exists k :: 0 <= k < |rows| && RowDestination(rows[k]) == Some(p.destination)
  {
    hide ParseRow, RowDestination;
    if rows != [] {
      ParsedRowsAreDistinct(rows[1..]);
      var head, rest := ParseRow(rows[0]), ParseRows(rows[1..]);
      ParsedHead(rows[0]);
      forall p | p in rest ensures exists k :: 1 <= k < |rows| && RowDestination(rows[k]) == Some(p.destination) {
        var k :| 0 <= k < |rows[1..]| && RowDestination(rows[1..][k]) == Some(p.destination);
        assert rows[k + 1] == rows[1..][k];
      }
      if head.Some? {
        assert ParseRows(rows) == [head.value] + rest;
        ConsPathIsDistinct(head.value, rest);
      } else {
        assert ParseRows(rows) == rest;
      }
    }
  }

  lemma ConsPathIsDistinct(p: Path, rest: seq<Path>)
    requires DistinctPaths(rest) && forall q :: q in rest ==> q.destination != p.destination
    ensures DistinctPaths([p] + rest)
  {
    forall i, j | 0 <= i < j < |rest| + 1 ensures ([p] + rest)[i].destination != ([p] + rest)[j].destination {
      assert ([p] + rest)[j] == rest[j - 1] && rest[j - 1] in rest;
    }
  }

  lemma ParsedHead(row: V.Value)
    ensures ParseRow(row).Some? ==> RowDestination(row) == Some(ParseRow(row).value.destination)
  {
  }

  /** Neither the saved table nor the pending list has a destination twice. */
  ghost predicate Tidy(h: Handler) {
    && (h.file.Some? ==> DistinctPaths(ParseTable(h.file.value)))
    && (h.pending.Some? ==> DistinctPaths(h.pending.value))
  }

  lemma {:induction false} WaitingIsDistinct(ifaces: seq<Iface>, paths: seq<Path>)
    requires DistinctPaths(paths)
    ensures DistinctPaths(Waiting(ifaces, paths))
  {
    hide LiveIds;
    if paths != [] {
      WaitingIsDistinct(ifaces, paths[1..]);
      var rest := Waiting(ifaces, paths[1..]);
      forall k | 0 <= k < |rest| ensures rest[k].destination != paths[0].destination {
        WaitingHolds(ifaces, paths[1..], rest[k]);
      }
    }
  }

  lemma LoadKeepsTidy(u: Surroundings, h: Handler)
    requires Tidy(h)
    ensures Tidy(Loaded(u, h))
  {
    hide Restored, ParseTable, LiveIds, DistinctPaths;
    if Scans(u, h) {
      assert DistinctPaths(ToRestore(u, h)) by { NoPathsAreDistinct(); }
      WaitingIsDistinct(u.ifaces, ToRestore(u, h));
    }
  }

  lemma NoPathsAreDistinct()
    ensures DistinctPaths([])
  {
  }

  lemma StepKeepsTidy(h: Handler, e: Event)
    requires Tidy(h)
    ensures Tidy(Step(h, e))
  {
    hide Loaded, Rows, ParseRows, DistinctPaths, IsOrder;
    match e {
      case SaveEvent(u, order) =>
        if IsOrder(h, order) {
          SavedRowsAreDistinct(u, h, order);
          ParsedRowsAreDistinct(Rows(u, h, order));
        }
      case LoadEvent(u) => LoadKeepsTidy(u, h);
      case ReloadEvent(u) => LoadKeepsTidy(u, h.(loaded := false, pending := None));
      case _ =>
    }
  }

  /** Over any run, a table that starts without duplicates never gains one. */
  lemma {:induction false} NoDestinationTwice(h: Handler, events: seq<Event>)
    requires Tidy(h)
    ensures Tidy(Run(h, events))
    decreases |events|
  {
    hide Tidy, Step;
    if events != [] {
      StepKeepsTidy(h, events[0]);
      NoDestinationTwice(Step(h, events[0]), events[1..]);
    }
  }

  // ---- A pending path survives ----------------------------------------------------------------

  /** The path is pending and saved, and its destination has no live path. */
  ghost predicate PendingFor(h: Handler, p: Path) {
    && h.pending.Some? && p in h.pending.value
    && p.destination !in h.table
    && FileHas(h, p) && Tidy(h)
  }

  /** What a reload starts from. */
  function Forgotten(h: Handler): Handler {
    h.(loaded := false, pending := None)
  }

  /** Exactly what a step must not do to a pending path. */
  predicate Spares(h: Handler, p: Path, e: Event) {
    match e
    case SaveEvent(_, _) => true
    case LoadEvent(u) => Scans(u, h) ==> p.stableIface !in LiveIds(u.ifaces)
    case ReloadEvent(u) => Scans(u, Forgotten(h)) && p.stableIface !in LiveIds(u.ifaces)
    case LearnEvent(destination, _) => destination != p.destination
    case ForgetEvent(_) => true
  }

  /** A scan with no live interface of the path's id keeps it waiting and its destination free. */
  lemma ScanKeepsWaiting(u: Surroundings, h: Handler, p: Path)
    requires Scans(u, h) && p in ToRestore(u, h) && DistinctPaths(ToRestore(u, h))
    requires p.destination !in h.table && p.stableIface !in LiveIds(u.ifaces)
    ensures var after := Loaded(u, h);
            after.pending.Some? && p in after.pending.value && p.destination !in after.table && !after.loaded
  {
    hide Restored, LiveIds, ToRestore, Unique;
    var paths := ToRestore(u, h);
    WaitingHolds(u.ifaces, paths, p);
    var k :| 0 <= k < |paths| && paths[k] == p;
    RestoresExactly(u, h.table, paths, k);
    LiveMeansOwned(u.ifaces, p.stableIface);
  }

  /** A step keeps a pending path pending, saved and unopposed exactly if it spares it. */
  lemma StepKeepsPendingIff(h: Handler, e: Event, p: Path)
    requires PendingFor(h, p)
    ensures PendingFor(Step(h, e), p) <==> Spares(h, p, e)
  {
    hide Saved, Restored, ParseTable, LiveIds, DistinctPaths;
    StepKeepsTidy(h, e);
    match e {
      case SaveEvent(u, order) => SaveKeepsHeld(u, h, order, p); SavedKeepsPending(u, h, order);
      case LoadEvent(u) => LoadKeepsPendingIff(u, h, p);
      case ReloadEvent(u) => LoadKeepsPendingIff(u, Forgotten(h), p);
      case _ =>
    }
  }

  lemma SavedKeepsPending(u: Surroundings, h: Handler, order: seq<Address>)
    ensures var after := Saved(u, h, order);
            after.pending == h.pending && after.table == h.table && after.loaded == h.loaded
  {
    hide Rows;
  }

  lemma LoadKeepsPendingIff(u: Surroundings, h: Handler, p: Path)
    requires Tidy(h) && FileHas(h, p) && p.destination !in h.table && (h.pending.Some? ==> p in h.pending.value)
    ensures var after := Loaded(u, h);
            (after.pending.Some? && p in after.pending.value && p.destination !in after.table) <==>
            if Scans(u, h) then p.stableIface !in LiveIds(u.ifaces) else h.pending.Some?
    ensures Loaded(u, h).file == h.file
  {
    hide Restored, ParseTable, LiveIds, DistinctPaths;
    if Scans(u, h) {
      WaitingHolds(u.ifaces, ToRestore(u, h), p);
      if p.stableIface !in LiveIds(u.ifaces) {
        ScanKeepsWaiting(u, h, p);
      }
    }
  }

  /** Reading a saved table is what makes its paths pending, before or after a restart. */
  lemma ReadingMakesPending(u: Surroundings, h: Handler, p: Path)
    requires Tidy(h) && FileHas(h, p) && h.pending.None? && p.destination !in h.table
    requires Scans(u, h) && p.stableIface !in LiveIds(u.ifaces)
    ensures PendingFor(Loaded(u, h), p) && !Loaded(u, h).loaded
  {
    hide Restored, ParseTable, LiveIds;
    LoadKeepsTidy(u, h);
    ScanKeepsWaiting(u, h, p);
  }

  /** An interface list that can restore paths, none of them this one. */
  predicate Elsewhere(u: Surroundings, p: Path) {
    LiveIds(u.ifaces) != {} && p.stableIface !in LiveIds(u.ifaces) && u.storage && !u.shared && u.retransmit
  }

  /** Events that leave a pending path alone, whatever state they find: any save, any forgetting,
      learning another path, a load with no live interface of its id, and a reload that has some
      other interface to scan with. */
  predicate Quiet(p: Path, e: Event) {
    match e
    case LoadEvent(u) => p.stableIface !in LiveIds(u.ifaces)
    case ReloadEvent(u) => Elsewhere(u, p)
    case LearnEvent(destination, _) => destination != p.destination
    case _ => true
  }

  /** Once the table has been read, a path with no live path for its destination stays pending and
      saved, with every field unchanged, through any run of saves, loads, reloads and other paths'
      changes in which no interface of its id comes up. */
  lemma {:induction false} PendingPathSurvives(h: Handler, events: seq<Event>, p: Path)
    requires PendingFor(h, p) && forall e :: e in events ==> Quiet(p, e)
    ensures PendingFor(Run(h, events), p)
    decreases |events|
  {
    hide PendingFor, Step, LiveIds;
    if events != [] {
      assert Quiet(p, events[0]);
      StepKeepsPendingIff(h, events[0], p);
      PendingPathSurvives(Step(h, events[0]), events[1..], p);
    }
  }

  /** Loads that neither meet a shared instance nor are switched off. */
  predicate Connected(e: Event) {
    e.LoadEvent? ==> e.u.storage && !e.u.shared && e.u.retransmit
  }

  lemma {:induction false} PendingPathStaysLoadable(h: Handler, events: seq<Event>, p: Path)
    requires PendingFor(h, p) && !h.loaded && forall e :: e in events ==> Quiet(p, e) && Connected(e)
    ensures !Run(h, events).loaded
    decreases |events|
  {
    hide PendingFor, LiveIds, Saved, Restored;
    if events != [] {
      assert Quiet(p, events[0]) && Connected(events[0]);
      StepKeepsPendingIff(h, events[0], p);
      QuietStepStaysLoadable(h, events[0], p);
      PendingPathStaysLoadable(Step(h, events[0]), events[1..], p);
    }
  }

  lemma QuietStepStaysLoadable(h: Handler, e: Event, p: Path)
    requires PendingFor(h, p) && !h.loaded && Quiet(p, e) && Connected(e)
    ensures !Step(h, e).loaded
  {
    hide Saved, Restored, ParseTable, LiveIds;
    match e {
      case SaveEvent(u, order) => SavedKeepsPending(u, h, order);
      case LoadEvent(u) =>
        if Scans(u, h) {
          ScanKeepsWaiting(u, h, p);
        }
      case ReloadEvent(u) => ScanKeepsWaiting(u, Forgotten(h), p);
      case _ =>
    }
  }

  /** What a scan makes of a path whose stable id is live. */
  ghost predicate ResolvedBy(u: Surroundings, after: Handler, p: Path) {
    && (after.pending.Some? ==> p !in after.pending.value)
    && (p.destination in after.table <==> |Owners(u.ifaces, p.stableIface)| == 1 && Accepts(u, p))
    && (p.destination in after.table ==>
          |Owners(u.ifaces, p.stableIface)| == 1
          && after.table[p.destination] == RestoredEntry(u, p, Owners(u.ifaces, p.stableIface)[0]))
  }

  lemma ScanResolves(u: Surroundings, h: Handler, p: Path)
    requires Scans(u, h) && p in ToRestore(u, h) && DistinctPaths(ToRestore(u, h))
    requires p.destination !in h.table && p.stableIface in LiveIds(u.ifaces)
    ensures ResolvedBy(u, Loaded(u, h), p)
  {
    hide Restored, LiveIds, ToRestore, Owners, RestoredEntry;
    var paths := ToRestore(u, h);
    WaitingHolds(u.ifaces, paths, p);
    var k :| 0 <= k < |paths| && paths[k] == p;
    RestoresExactly(u, h.table, paths, k);
  }

  /** The whole life of a pending path: it survives any quiet run, and the first load that finds
      its stable id live takes it off the pending list and puts it into the table exactly if one
      live interface owns the id and the announce is accepted, bound to that interface and with
      its fields. A reload in that place does the same. */
  lemma PendingPathIsRestoredWhenLive(h: Handler, events: seq<Event>, p: Path, u: Surroundings)
    requires PendingFor(h, p) && !h.loaded && forall e :: e in events ==> Quiet(p, e) && Connected(e)
    requires u.storage && !u.shared && u.retransmit && p.stableIface in LiveIds(u.ifaces)
    ensures ResolvedBy(u, Step(Run(h, events), LoadEvent(u)), p)
    ensures ResolvedBy(u, Step(Run(h, events), ReloadEvent(u)), p)
  {
    hide Run, ResolvedBy, ParseTable, LiveIds, Loaded, DistinctPaths;
    PendingPathSurvives(h, events, p);
    PendingPathStaysLoadable(h, events, p);
    var waiting := Run(h, events);
    ScanResolves(u, waiting, p);
    ScanResolves(u, Forgotten(waiting), p);
  }

  /** A reload followed by a save keeps a pending path exactly if the reload had an interface to scan
      with: otherwise it forgets what was read without reading again. */
  lemma ReloadThenSaveKeepsIffScanned(h: Handler, p: Path, r: Surroundings, u: Surroundings, order: seq<Address>)
    requires PendingFor(h, p) && p.stableIface !in LiveIds(r.ifaces)
    requires Saves(u) && IsOrder(Reloaded(r, h), order)
    ensures FileHas(Saved(u, Reloaded(r, h), order), p) <==> Scans(r, Forgotten(h))
    ensures PendingFor(Saved(u, Reloaded(r, h), order), p) <==> Scans(r, Forgotten(h))
  {
    hide Restored, ParseTable, LiveIds, Saved, DistinctPaths, IsOrder;
    var reloaded := Reloaded(r, h);
    StepKeepsTidy(h, ReloadEvent(r));
    StepKeepsTidy(reloaded, SaveEvent(u, order));
    LoadKeepsPendingIff(r, Forgotten(h), p);
    SavedKeepsPending(u, reloaded, order);
    SaveKeepsIffRead(u, reloaded, order, p);
  }

  /** So a table that was read can still be lost: a reload while no interface is live, then a save. */
  lemma ReloadWithoutInterfacesLosesPaths(h: Handler, p: Path, none: Surroundings, u: Surroundings, order: seq<Address>)
    requires PendingFor(h, p) && LiveIds(none.ifaces) == {} && Saves(u) && IsOrder(h, order)
    ensures var after := Run(h, [ReloadEvent(none), SaveEvent(u, order)]);
            after.pending.None? && !FileHas(after, p)
  {
    hide ParseTable, LiveIds, PendingFor, Saved, IsOrder;
    var events := [ReloadEvent(none), SaveEvent(u, order)];
    assert events[1..] == [SaveEvent(u, order)] && events[1..][1..] == [];
    var reloaded := Reloaded(none, h);
    assert reloaded.table == h.table && reloaded.pending == None;
    assert IsOrder(reloaded, order) by { OrderIsOfTable(h, reloaded, order); }
    var saved := Saved(u, reloaded, order);
    assert Run(saved, []) == saved && Run(reloaded, events[1..]) == Run(saved, []);
    assert Run(h, events) == Run(reloaded, events[1..]);
    SavedKeepsPending(u, reloaded, order);
    ReloadThenSaveKeepsIffScanned(h, p, none, u, order);
  }

  lemma OrderIsOfTable(h: Handler, other: Handler, order: seq<Address>)
    requires h.table == other.table && IsOrder(h, order)
    ensures IsOrder(other, order)
  {
  }

  // ---- Live paths across a restart ------------------------------------------------------------

  /** The row of a live path with a cached announce, as a path. */
  function AsPath(u: Surroundings, destination: Address, id: Address, e: Live, announce: Bytes): Path {
    Path(destination, id, e.hops, u.learned(e), e.mode, e.gravity, e.unresponsive, LastBlobs(e.blobs), announce,
         e.receivedFrom, e.packetHash, Some(e.expiresUnix))
  }

  lemma {:induction false} LiveRowsHold(u: Surroundings, table: map<Address, Live>, order: seq<Address>, d: Address,
                                        id: Address, announce: Bytes)
    requires d in order && d in table && StableIdOf(u.ifaces, table[d].iface) == Some(id)
    requires u.cached(table[d].packetHash) == Some(announce)
    ensures AsPath(u, d, id, table[d], announce) in ParseRows(LiveRows(u, table, order))
  {
    hide StableIdOf, ParseRow, Row;
    var p := AsPath(u, d, id, table[d], announce);
    var rest := LiveRows(u, table, order[1..]);
    if order[0] == d {
      assert LiveRows(u, table, order) == [RowOf(p)] + rest;
      RowRoundTrip(p);
      assert ([RowOf(p)] + rest)[1..] == rest;
    } else {
      LiveRowsHold(u, table, order[1..], d, id, announce);
      var head := LiveRows(u, table, order)[..|LiveRows(u, table, order)| - |rest|];
      assert LiveRows(u, table, order) == head + rest;
      ParseRowsAppend(head, rest);
    }
  }

  /** A live path whose announce is cached survives a save and a restart: once exactly one live
      interface owns the stable id it was saved under, a load puts it back, bound to that
      interface and with its fields, its expiry and its latest 32 blobs. */
  lemma LivePathSurvivesRestart(u: Surroundings, h: Handler, order: seq<Address>, d: Address, id: Address,
                                announce: Bytes, v: Surroundings, owner: Address)
    requires Saves(u) && IsOrder(h, order) && (h.pending.Some? ==> DistinctPaths(h.pending.value))
    requires d in h.table && StableIdOf(u.ifaces, h.table[d].iface) == Some(id)
    requires u.cached(h.table[d].packetHash) == Some(announce)
    requires v.storage && !v.shared && v.retransmit && Owners(v.ifaces, id) == [owner]
    requires Accepts(v, AsPath(u, d, id, h.table[d], announce))
    ensures var restarted := Handler(map[], None, false, Saved(u, h, order).file);
            var e, p := h.table[d], AsPath(u, d, id, h.table[d], announce);
            && d in Loaded(v, restarted).table
            && Loaded(v, restarted).table[d] ==
               Live(e.receivedFrom, e.hops, owner, v.timestamp(p), e.unresponsive, e.packetHash, v.mode(e.mode),
                    e.expiresUnix, LastBlobs(e.blobs), e.gravity)
  {
    hide StableIdOf, LiveRows, PendingRows, ParseRows, Restored, Owners, IsOrder, DistinctPaths, LastBlobs;
    var restarted := Handler(map[], None, false, Saved(u, h, order).file);
    var p, rows := AsPath(u, d, id, h.table[d], announce), Rows(u, h, order);
    assert d in order by { OrderNames(h, order, d); }
    LiveRowsHold(u, h.table, order, d, id, announce);
    SavedRowsAreDistinct(u, h, order);
    ParsedRowsAreDistinct(rows);
    ParseRowsAppend(LiveRows(u, h.table, order), if h.pending.Some? then PendingRows(h.table, h.pending.value) else []);
    var paths := ParseRows(rows);
    assert p in paths;
    var k :| 0 <= k < |paths| && paths[k] == p;
    LiveMeansOwned(v.ifaces, id);
    RestoresExactly(v, map[], paths, k);
    assert Loaded(v, restarted).table == Restored(v, map[], paths);
  }

  lemma OrderNames(h: Handler, order: seq<Address>, d: Address)
    requires IsOrder(h, order) && d in h.table
    ensures d in order
  {
  }

  // ---- What a save writes ---------------------------------------------------------------------

  /** The live path to a destination, if its interface is live and its announce still cached. */
  function LivePath(u: Surroundings, table: map<Address, Live>, d: Address): seq<Path> {
    if d in table && StableIdOf(u.ifaces, table[d].iface).Some? && u.cached(table[d].packetHash).Some?
    then [AsPath(u, d, StableIdOf(u.ifaces, table[d].iface).value, table[d], u.cached(table[d].packetHash).value)]
    else []
  }

  function LivePaths(u: Surroundings, table: map<Address, Live>, order: seq<Address>): seq<Path> {
    if order == [] then [] else LivePath(u, table, order[0]) + LivePaths(u, table, order[1..])
  }

  function PendingPaths(table: map<Address, Live>, paths: seq<Path>): seq<Path> {
    if paths == [] then []
    else (if paths[0].destination in table then [] else [paths[0]]) + PendingPaths(table, paths[1..])
  }

  lemma LiveRowIsRead(u: Surroundings, table: map<Address, Live>, d: Address)
    ensures ParseRows(LiveRowOf(u, table, d)) == LivePath(u, table, d)
  {
    hide StableIdOf, ParseRow, Row;
    if d in table && StableIdOf(u.ifaces, table[d].iface).Some? {
      var id, e := StableIdOf(u.ifaces, table[d].iface).value, table[d];
      var row := LiveRow(u, d, id, e);
      assert [row][1..] == [];
      if u.cached(e.packetHash).Some? {
        var p := AsPath(u, d, id, e, u.cached(e.packetHash).value);
        assert row == RowOf(p);
        RowRoundTrip(p);
      } else {
        NoAnnounceNoPath(u, d, id, e);
      }
    }
  }

  lemma NoAnnounceNoPath(u: Surroundings, d: Address, id: Address, e: Live)
    requires u.cached(e.packetHash).None?
    ensures ParseRow(LiveRow(u, d, id, e)).None?
  {
    hide BlobValues, LastBlobs, ParseBlobs;
  }

  lemma {:induction false} LiveRowsAreRead(u: Surroundings, table: map<Address, Live>, order: seq<Address>)
    ensures ParseRows(LiveRows(u, table, order)) == LivePaths(u, table, order)
  {
    hide LiveRowOf, LivePath, ParseRow;
    if order != [] {
      LiveRowsAreRead(u, table, order[1..]);
      LiveRowIsRead(u, table, order[0]);
      ParseRowsAppend(LiveRowOf(u, table, order[0]), LiveRows(u, table, order[1..]));
    }
  }

  lemma {:induction false} PendingRowsAreRead(table: map<Address, Live>, paths: seq<Path>)
    ensures ParseRows(PendingRows(table, paths)) == PendingPaths(table, paths)
  {
    hide RowOf, ParseRow;
    if paths != [] {
      PendingRowsAreRead(table, paths[1..]);
      RowRoundTrip(paths[0]);
      var rest := PendingRows(table, paths[1..]);
      assert ([RowOf(paths[0])] + rest)[1..] == rest && [] + rest == rest;
    }
  }

  /** Exactly what a save leaves on the disk: nothing new without storage, while connected to a shared
      instance, or if the write fails; else, in the order of the table, every live path whose
      interface is live and whose announce is cached, then every pending path without a live one. */
  lemma SavedPathsAre(u: Surroundings, h: Handler, order: seq<Address>)
    ensures !u.storage || u.shared || !u.writable ==> Saved(u, h, order) == h
    ensures u.storage && !u.shared && u.writable ==>
              var after := Saved(u, h, order);
              && after == h.(file := after.file) && after.file.Some?
              && ParseTable(after.file.value) ==
                 LivePaths(u, h.table, order) + if h.pending.Some? then PendingPaths(h.table, h.pending.value) else []
  {
    hide LiveRows, PendingRows, ParseRows, LivePaths, PendingPaths;
    LiveRowsAreRead(u, h.table, order);
    var pending := if h.pending.Some? then PendingRows(h.table, h.pending.value) else [];
    ParseRowsAppend(LiveRows(u, h.table, order), pending);
    if h.pending.Some? {
      PendingRowsAreRead(h.table, h.pending.value);
    } else {
      NoRowsRead();
    }
  }

  lemma NoRowsRead()
    ensures ParseRows([]) == []
  {
  }
}

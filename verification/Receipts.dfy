/** The bounded table of packet receipts (src/transport.rs). Times are nanoseconds. */
module Receipts {
  import opened Octets
  import opened Crypto

  const MAX_RECEIPTS: nat := 1024
  const RECEIPT_CONCLUDED_GRACE: nat := 5_000_000_000

  datatype Status = Sent | Delivered | Failed | Culled

  datatype Receipt = Receipt(sentAt: nat, timeout: Option<nat>, status: Status, concludedAt: Option<nat>)

  type Table = map<Address, Receipt>

  // ---- Culling --------------------------------------------------------------------------------

  predicate Retained(r: Receipt, now: nat) {
    r.status.Sent? || (r.concludedAt.Some? && SaturatingSub(now, r.concludedAt.value) < RECEIPT_CONCLUDED_GRACE)
  }

  function Swept(t: Table, now: nat): Table {
    map key | key in t && Retained(t[key], now) :: t[key]
  }

  function EndOf(r: Receipt): nat {
    if r.concludedAt.Some? then r.concludedAt.value else r.sentAt
  }

  /** The eviction order: in-flight receipts first, oldest first; then concluded ones, oldest
      conclusion first. */
  predicate Before(a: Receipt, b: Receipt) {
    if a.status.Sent? then b.status.Sent? ==> a.sentAt <= b.sentAt
    else !b.status.Sent? && EndOf(a) <= EndOf(b)
  }

  ghost predicate Subtable(small: Table, big: Table) {
    forall key :: key in small ==> key in big && small[key] == big[key]
  }

  ghost predicate EvictedInOrder(all: Table, kept: Table) {
    forall gone, key :: gone in all && gone !in kept && key in kept ==> Before(all[gone], kept[key])
  }

  /** A possible result of `cull_receipts`: equal times leave it a choice. */
  ghost predicate IsCull(t: Table, after: Table, now: nat) {
    var swept := Swept(t, now);
    Subtable(after, swept) && |after| == Min(|swept|, MAX_RECEIPTS) && EvictedInOrder(swept, after)
  }

  /** What culling promises: the bound, exactly the excess removed, an in-flight receipt evicted
      only for younger ones, a concluded one in grace only when nothing is in flight. */
  lemma CullPromises(t: Table, after: Table, now: nat, gone: Address, key: Address)
    requires IsCull(t, after, now)
    ensures |after| <= MAX_RECEIPTS
    ensures |Swept(t, now)| - |after| == SaturatingSub(|Swept(t, now)|, MAX_RECEIPTS)
    ensures gone in Swept(t, now) && gone !in after && key in after && after[key].status.Sent? ==>
              t[gone].status.Sent? && t[gone].sentAt <= after[key].sentAt
    ensures |Swept(t, now)| <= MAX_RECEIPTS ==> after == Swept(t, now)
  {
    if |Swept(t, now)| <= MAX_RECEIPTS {
      FullSubtable(after, Swept(t, now));
    }
  }

  /** In flight, or concluded less than five seconds ago. */
  predicate Young(r: Receipt, now: nat) {
    r.status.Sent? || (r.concludedAt.Some? && now < r.concludedAt.value + 5_000_000_000)
  }

  function YoungOnes(t: Table, now: nat): set<Address> {
    set key | key in t && Young(t[key], now)
  }

  /** Exactly which receipts a cull leaves, said of the table before it. What stays is young and
      unchanged. A young one goes only if there are more than 1024 young ones: one in flight only
      before younger ones in flight, a concluded one only if nothing in flight stays and then
      before those concluded later. */
  lemma CullIsExact(t: Table, after: Table, now: nat, key: Address)
    requires IsCull(t, after, now)
    ensures key in after ==> key in t && after[key] == t[key] && Young(t[key], now)
    ensures key in t && Young(t[key], now) && key !in after ==>
              && |YoungOnes(t, now)| > MAX_RECEIPTS && |after| == MAX_RECEIPTS
              && forall k :: k in after ==>
                   if t[key].status.Sent? then after[k].status.Sent? ==> t[key].sentAt <= after[k].sentAt
                   else !after[k].status.Sent? && after[k].concludedAt.Some? && t[key].concludedAt.Some?
                        && t[key].concludedAt.value <= after[k].concludedAt.value
    ensures |YoungOnes(t, now)| <= MAX_RECEIPTS ==>
              forall k :: k in after <==> k in t && Young(t[k], now)
  {
    var swept := Swept(t, now);
    assert forall k :: k in t ==> (Young(t[k], now) <==> Retained(t[k], now));
    assert swept.Keys == YoungOnes(t, now);
    if |swept| <= MAX_RECEIPTS {
      FullSubtable(after, swept);
    }
  }

  lemma FullSubtable(small: Table, big: Table)
    requires Subtable(small, big) && |small| == |big|
    ensures small == big
  {
    assert small.Keys <= big.Keys;
    assert |big.Keys - small.Keys| == |big.Keys| - |small.Keys| == 0;
    assert big.Keys == small.Keys + (big.Keys - small.Keys);
  }

  // ---- Conclusion -----------------------------------------------------------------------------

  predicate TimedOut(r: Receipt, now: nat) {
    r.timeout.None? || SaturatingSub(now, r.sentAt) >= r.timeout.value
  }

  function ConcludedReceipt(r: Receipt, now: nat): Receipt {
    if r.status.Sent? && TimedOut(r, now)
    then r.(status := if r.timeout.None? then Culled else Failed, concludedAt := Some(now)) else r
  }

  function Concluded(t: Table, now: nat): Table {
    map key | key in t :: ConcludedReceipt(t[key], now)
  }

  function Proved(t: Table, key: Address, now: nat): Table {
    if key in t then t[key := t[key].(status := Delivered, concludedAt := Some(now))] else t
  }

  function Rescheduled(t: Table, key: Address, timeout: Option<nat>): Table {
    if key in t then t[key := t[key].(timeout := timeout)] else t
  }

  class ReceiptTable {
    var receipts: Table

    constructor ()
      ensures receipts == map[]
    {
      receipts := map[];
    }

    method Cull(now: nat)
      modifies this
      ensures IsCull(old(receipts), receipts, now)
    {
      receipts := Swept(receipts, now);
      ghost var swept := receipts;
      while |receipts| > MAX_RECEIPTS
        invariant Subtable(receipts, swept) && EvictedInOrder(swept, receipts)
        invariant |receipts| >= Min(|swept|, MAX_RECEIPTS) && |receipts| <= |swept|
        decreases |receipts|
      {
        var key := OldestInFlight(receipts);
        if key.None? {
          key := OldestConcluded(receipts);
        }
        if key.None? {
          break;
        }
        RemoveOldest(swept, receipts, key.value);
        receipts := receipts - {key.value};
      }
    }

    method Check(now: nat)
      modifies this
      ensures IsCull(Concluded(old(receipts), now), receipts, now)
    {
      var todo := receipts.Keys;
      while todo != {}
        invariant receipts.Keys == old(receipts).Keys && todo <= receipts.Keys
        invariant forall key :: key in receipts ==>
                    receipts[key] == if key in todo then old(receipts)[key]
                      else ConcludedReceipt(old(receipts)[key], now)
        decreases todo
      {
        var key :| key in todo;
        todo := todo - {key};
        var r := receipts[key];
        if r.status.Sent? && TimedOut(r, now) {
          receipts := receipts[key :=
            r.(status := if r.timeout.None? then Culled else Failed, concludedAt := Some(now))];
        }
      }
      assert receipts == Concluded(old(receipts), now);
      Cull(now);
    }

    method Insert(key: Address, now: nat, timeout: Option<nat>)
      modifies this
      ensures IsCull(old(receipts)[key := Receipt(now, timeout, Sent, None)], receipts, now)
    {
      receipts := receipts[key := Receipt(now, timeout, Sent, None)];
      Cull(now);
    }

    method Prove(key: Address, now: nat)
      modifies this
      ensures receipts == Proved(old(receipts), key, now)
    {
      if key in receipts {
        receipts := receipts[key := receipts[key].(status := Delivered, concludedAt := Some(now))];
      }
    }

    method SetTimeout(key: Address, timeout: Option<nat>) returns (found: bool)
      modifies this
      ensures receipts == Rescheduled(old(receipts), key, timeout) && found == (key in old(receipts))
    {
      found := key in receipts;
      if found {
        receipts := receipts[key := receipts[key].(timeout := timeout)];
      }
    }
  }

  /** The in-flight receipt with the smallest sending time. */
  method OldestInFlight(t: Table) returns (oldest: Option<Address>)
    ensures oldest.None? ==> forall key :: key in t ==> !t[key].status.Sent?
    ensures oldest.Some? ==> oldest.value in t && t[oldest.value].status.Sent?
                             && forall key :: key in t ==> Before(t[oldest.value], t[key])
  {
    oldest := None;
    var todo := t.Keys;
    while todo != {}
      invariant todo <= t.Keys
      invariant oldest.None? ==> forall key :: key in t && key !in todo ==> !t[key].status.Sent?
      invariant oldest.Some? ==> oldest.value in t && t[oldest.value].status.Sent?
                                 && forall key :: key in t && key !in todo ==> Before(t[oldest.value], t[key])
      decreases todo
    {
      var key :| key in todo;
      todo := todo - {key};
      if t[key].status.Sent? && (oldest.None? || t[key].sentAt < t[oldest.value].sentAt) {
        oldest := Some(key);
      }
    }
  }

  /** The receipt that ended first, when none is in flight. */
  method OldestConcluded(t: Table) returns (oldest: Option<Address>)
    requires forall key :: key in t ==> !t[key].status.Sent?
    ensures oldest.None? <==> t == map[]
    ensures oldest.Some? ==> oldest.value in t && forall key :: key in t ==> Before(t[oldest.value], t[key])
  {
    oldest := None;
    var todo := t.Keys;
    while todo != {}
      invariant todo <= t.Keys
      invariant oldest.None? ==> todo == t.Keys
      invariant oldest.Some? ==>
                  oldest.value in t && forall key :: key in t && key !in todo ==> Before(t[oldest.value], t[key])
      decreases todo
    {
      var key :| key in todo;
      todo := todo - {key};
      if oldest.None? || EndOf(t[key]) < EndOf(t[oldest.value]) {
        oldest := Some(key);
      }
    }
  }

  lemma RemoveOldest(swept: Table, t: Table, oldest: Address)
    requires Subtable(t, swept) && EvictedInOrder(swept, t) && oldest in t
    requires forall key :: key in t ==> Before(t[oldest], t[key])
    ensures Subtable(t - {oldest}, swept) && EvictedInOrder(swept, t - {oldest})
    ensures |t - {oldest}| == |t| - 1
  {
    var after := t - {oldest};
    assert after.Keys == t.Keys - {oldest};
  }

  // ---- What a check leaves --------------------------------------------------------------------

  /** A receipt after a check: still in flight exactly while its timeout lies ahead; otherwise failed,
      or culled if it had no timeout; what was concluded before is as it was. */
  lemma CheckedReceipt(t: Table, after: Table, now: nat, key: Address)
    requires IsCull(Concluded(t, now), after, now) && key in after
    ensures key in t && after[key].sentAt == t[key].sentAt && after[key].timeout == t[key].timeout
    ensures !t[key].status.Sent? ==> after[key] == t[key]
    ensures t[key].status.Sent? ==>
              match t[key].timeout
              case None => after[key].status.Culled? && after[key].concludedAt == Some(now)
              case Some(timeout) =>
                if (if now < t[key].sentAt then 0 else now - t[key].sentAt) < timeout then after[key] == t[key]
                else after[key].status.Failed? && after[key].concludedAt == Some(now)
  {
  }

  /** A timeout set for a receipt in flight is the one the next check goes by. */
  lemma NewTimeoutTakesEffect(t: Table, key: Address, timeout: nat, now: nat, after: Table)
    requires key in t && t[key].status.Sent?
    requires IsCull(Concluded(Rescheduled(t, key, Some(timeout)), now), after, now) && key in after
    ensures after[key].timeout == Some(timeout)
    ensures after[key].status.Sent? <==> (if now < t[key].sentAt then 0 else now - t[key].sentAt) < timeout
    ensures forall other :: other != key ==>
              (other in Rescheduled(t, key, Some(timeout)) <==> other in t)
              && (other in t ==> Rescheduled(t, key, Some(timeout))[other] == t[other])
  {
    CheckedReceipt(Rescheduled(t, key, Some(timeout)), after, now, key);
  }

  // ---- Runs -----------------------------------------------------------------------------------

  datatype Event =
    | InsertEvent(key: Address, now: nat, timeout: Option<nat>)
    | ProveEvent(key: Address, now: nat)
    | TimeoutEvent(key: Address, timeout: Option<nat>)
    | CheckEvent(now: nat)

  ghost predicate Next(t: Table, after: Table, e: Event) {
    match e
    case InsertEvent(key, now, timeout) => IsCull(t[key := Receipt(now, timeout, Sent, None)], after, now)
    case ProveEvent(key, now) => after == Proved(t, key, now)
    case TimeoutEvent(key, timeout) => after == Rescheduled(t, key, timeout)
    case CheckEvent(now) => IsCull(Concluded(t, now), after, now)
  }

  /** A receipt is in flight exactly while it has no conclusion time. */
  ghost predicate Consistent(t: Table) {
    forall key :: key in t ==> (t[key].status.Sent? <==> t[key].concludedAt.None?)
  }

  lemma NextKeepsConsistent(t: Table, after: Table, e: Event)
    requires Consistent(t) && |t| <= MAX_RECEIPTS && Next(t, after, e)
    ensures Consistent(after) && |after| <= MAX_RECEIPTS
  {
    match e {
      case ProveEvent(key, now) => assert key in t ==> after.Keys == t.Keys;
      case TimeoutEvent(key, timeout) => assert key in t ==> after.Keys == t.Keys;
      case _ =>
    }
  }

  /** The time an event happens at, if it culls. */
  predicate Within(e: Event, key: Address, end: nat) {
    match e
    case InsertEvent(other, now, _) => other != key && now < end
    case ProveEvent(_, now) => now + RECEIPT_CONCLUDED_GRACE >= end
    case CheckEvent(now) => now < end
    case TimeoutEvent(_, _) => true
  }

  /** No more young receipts than the table holds. */
  ghost predicate Roomy(t: Table, e: Event) {
    match e
    case InsertEvent(key, now, timeout) =>
      var full := t[key := Receipt(now, timeout, Sent, None)];
      |YoungOnes(full, now)| <= MAX_RECEIPTS
    case CheckEvent(now) =>
      var full := Concluded(t, now);
      |YoungOnes(full, now)| <= MAX_RECEIPTS
    case _ => true
  }

  ghost predicate ReadsDelivered(t: Table, key: Address, end: nat) {
    key in t && t[key].status.Delivered? && t[key].concludedAt.Some?
    && t[key].concludedAt.value + RECEIPT_CONCLUDED_GRACE >= end
  }

  lemma NextKeepsDelivered(t: Table, after: Table, e: Event, key: Address, end: nat)
    requires ReadsDelivered(t, key, end) && Next(t, after, e) && Within(e, key, end) && Roomy(t, e)
    ensures ReadsDelivered(after, key, end)
  {
    match e {
      case InsertEvent(other, now, timeout) =>
        CullIsExact(t[other := Receipt(now, timeout, Sent, None)], after, now, key);
      case CheckEvent(now) => CullIsExact(Concluded(t, now), after, now, key);
      case _ =>
    }
  }

  /** A proof makes its receipt readable as delivered for five seconds, whatever else happens in the
      table, as long as it has room and the packet is not sent again under the same key. */
  lemma {:induction false} ProvenStaysReadable(states: seq<Table>, events: seq<Event>, key: Address, at: nat, k: nat)
    requires |states| == |events| + 1 && k <= |events|
    requires forall i :: 0 <= i < |events| ==> Next(states[i], states[i + 1], events[i])
    requires 0 < |events| && events[0] == ProveEvent(key, at) && key in states[0]
    requires forall i :: 0 < i < |events| ==>
               Within(events[i], key, at + RECEIPT_CONCLUDED_GRACE) && Roomy(states[i], events[i])
    ensures k > 0 ==> key in states[k] && states[k][key].status.Delivered?
    ensures k > 0 ==> ReadsDelivered(states[k], key, at + RECEIPT_CONCLUDED_GRACE)
  {
    hide Within, Roomy;
    if k == 1 {
      assert Next(states[0], states[1], events[0]);
    } else if k > 1 {
      ProvenStaysReadable(states, events, key, at, k - 1);
      hide Next, ReadsDelivered;
      NextKeepsDelivered(states[k - 1], states[k], events[k - 1], key, at + RECEIPT_CONCLUDED_GRACE);
      DeliveredIsReadable(states[k], key, at + RECEIPT_CONCLUDED_GRACE);
    }
  }

  lemma DeliveredIsReadable(t: Table, key: Address, end: nat)
    requires ReadsDelivered(t, key, end)
    ensures key in t && t[key].status.Delivered?
  {
  }

  /** On every run, at every moment. */
  lemma {:induction false} EveryRunIsConsistent(states: seq<Table>, events: seq<Event>, k: nat)
    requires |states| == |events| + 1 && states[0] == map[] && k <= |events|
    requires forall i :: 0 <= i < |events| ==> Next(states[i], states[i + 1], events[i])
    ensures Consistent(states[k]) && |states[k]| <= MAX_RECEIPTS
  {
    hide Next;
    if k > 0 {
      EveryRunIsConsistent(states, events, k - 1);
      NextKeepsConsistent(states[k - 1], states[k], events[k - 1]);
    }
  }
}

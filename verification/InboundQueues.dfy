/** The bounded strict-priority inbound scheduler (`InboundQueues` in src/transport.rs). */
module InboundQueues {
  import opened Octets

  const CLASSES: nat := 4

  /** Data, announces, path requests and ingress-limited path requests, in drain order. */
  type Class = c: nat | c < CLASSES

  const INBOUND_QUEUE_LENGTHS: seq<nat> := [1024, 128, 128, 8]

  datatype Queues<T> = Queues(queues: seq<seq<T>>, sizes: seq<nat>, dropped: seq<nat>) {
    predicate Valid() {
      && |queues| == |sizes| == |dropped| == CLASSES
      && forall c: Class :: |queues[c]| <= sizes[c]
    }
  }

  function SizeOf(sizes: seq<nat>, c: Class): nat
    requires |sizes| == CLASSES
  {
    if sizes[c] == 0 then INBOUND_QUEUE_LENGTHS[c] else sizes[c]
  }

  function New<T>(sizes: seq<nat>): (q: Queues<T>)
    requires |sizes| == CLASSES
    ensures q.Valid() && (forall c: Class :: q.sizes[c] > 0)
    ensures forall c: Class :: q.queues[c] == [] && q.dropped[c] == 0
    ensures forall c: Class :: q.sizes[c] == sizes[c] || (sizes[c] == 0 && q.sizes[c] == INBOUND_QUEUE_LENGTHS[c])
  {
    Queues([[], [], [], []], [SizeOf(sizes, 0), SizeOf(sizes, 1), SizeOf(sizes, 2), SizeOf(sizes, 3)], [0, 0, 0, 0])
  }

  predicate HasRoom<T>(q: Queues<T>, c: Class)
    requires q.Valid()
  {
    |q.queues[c]| < q.sizes[c]
  }

  function Put<T>(q: Queues<T>, c: Class, item: T): (r: Queues<T>)
    requires q.Valid()
    ensures r.Valid() && r.sizes == q.sizes
  {
    if HasRoom(q, c) then q.(queues := q.queues[c := q.queues[c] + [item]])
    else q.(dropped := q.dropped[c := q.dropped[c] + 1])
  }

  /** The first class with something queued, or 4. */
  function FirstBusy<T>(q: Queues<T>, from: nat): (c: nat)
    requires q.Valid() && from <= CLASSES
    ensures from <= c <= CLASSES
    ensures c < CLASSES ==> q.queues[c] != []
    ensures forall d :: from <= d < c ==> q.queues[d] == []
    decreases CLASSES - from
  {
    if from == CLASSES || q.queues[from] != [] then from else FirstBusy(q, from + 1)
  }

  function Got<T>(q: Queues<T>): Option<T>
    requires q.Valid()
  {
    var c := FirstBusy(q, 0);
    if c < CLASSES then Some(q.queues[c][0]) else None
  }

  function AfterGet<T>(q: Queues<T>): (r: Queues<T>)
    requires q.Valid()
    ensures r.Valid() && r.sizes == q.sizes && r.dropped == q.dropped
  {
    var c := FirstBusy(q, 0);
    if c < CLASSES then q.(queues := q.queues[c := q.queues[c][1..]]) else q
  }

  class InboundQueues<T> {
    var q: Queues<T>

    constructor (sizes: seq<nat>)
      requires |sizes| == CLASSES
      ensures q == New(sizes)
    {
      q := New(sizes);
    }

    method PutItem(c: Class, item: T) returns (accepted: bool)
      requires q.Valid()
      modifies this
      ensures q == Put(old(q), c, item) && accepted == HasRoom(old(q), c)
    {
      if |q.queues[c]| >= q.sizes[c] {
        q := q.(dropped := q.dropped[c := q.dropped[c] + 1]);
        return false;
      }
      q := q.(queues := q.queues[c := q.queues[c] + [item]]);
      return true;
    }

    method GetItem() returns (item: Option<T>)
      requires q.Valid()
      modifies this
      ensures q == AfterGet(old(q)) && item == Got(old(q))
    {
      var c := 0;
      while c < CLASSES
        invariant c <= CLASSES && q == old(q)
        invariant FirstBusy(q, 0) == FirstBusy(q, c)
      {
        if q.queues[c] != [] {
          item := Some(q.queues[c][0]);
          q := q.(queues := q.queues[c := q.queues[c][1..]]);
          return;
        }
        c := c + 1;
      }
      item := None;
    }

    /** The inbound loop: queue a whole burst, then drain everything in class order. */
    method Burst(batch: seq<(Class, T)>) returns (out: seq<T>)
      requires q.Valid()
      modifies this
      ensures out == Concatenated(PutAll(old(q), batch))
      ensures q == Emptied(PutAll(old(q), batch))
    {
      hide Concatenated;
      assert batch[0..] == batch;
      for i := 0 to |batch|
        invariant q.Valid()
        invariant PutAll(q, batch[i..]) == PutAll(old(q), batch)
      {
        assert batch[i..][1..] == batch[i + 1..];
        var accepted := PutItem(batch[i].0, batch[i].1);
      }
      ghost var filled := q;
      out := [];
      var more := true;
      while more
        invariant q.Valid() && q.sizes == filled.sizes && q.dropped == filled.dropped
        invariant out + Concatenated(q) == Concatenated(filled)
        invariant !more ==> Concatenated(q) == []
        decreases |Concatenated(q)|, more
      {
        GetTakesHead(q);
        var next := GetItem();
        if next.Some? {
          Regrouped(out, [next.value], Concatenated(q));
          out := out + [next.value];
        } else {
          more := false;
        }
      }
      EmptyIsEmptied(q, filled);
    }
  }

  function PutAll<T>(q: Queues<T>, batch: seq<(Class, T)>): (r: Queues<T>)
    requires q.Valid()
    ensures r.Valid() && r.sizes == q.sizes
    decreases |batch|
  {
    if batch == [] then q else PutAll(Put(q, batch[0].0, batch[0].1), batch[1..])
  }

  function Concatenated<T>(q: Queues<T>): seq<T>
    requires q.Valid()
  {
    q.queues[0] + q.queues[1] + q.queues[2] + q.queues[3]
  }

  function Emptied<T>(q: Queues<T>): Queues<T> {
    q.(queues := [[], [], [], []])
  }

  /** Taking the next item takes the head of the queues laid end to end. */
  lemma GetTakesHead<T>(q: Queues<T>)
    requires q.Valid()
    ensures Got(q).None? <==> Concatenated(q) == []
    ensures Got(q).Some? ==> Concatenated(q) == [Got(q).value] + Concatenated(AfterGet(q))
    ensures Got(q).None? ==> AfterGet(q) == q
  {
    var c := FirstBusy(q, 0);
    assert c > 0 ==> q.queues[0] == [];
    assert c > 1 ==> q.queues[1] == [];
    assert c > 2 ==> q.queues[2] == [];
    assert c > 3 ==> q.queues[3] == [];
    if c < CLASSES {
      assert q.queues[c] == [q.queues[c][0]] + q.queues[c][1..];
    }
  }

  lemma EmptyIsEmptied<T>(q: Queues<T>, filled: Queues<T>)
    requires q.Valid() && Concatenated(q) == [] && q.sizes == filled.sizes && q.dropped == filled.dropped
    ensures q == Emptied(filled)
  {
    assert forall c: Class :: |q.queues[c]| <= |Concatenated(q)|;
    assert q.queues == [[], [], [], []];
  }

  // ---- One burst ------------------------------------------------------------------------------

  function OfClass<T>(batch: seq<(Class, T)>, c: Class): seq<T> {
    if batch == [] then []
    else (if batch[0].0 == c then [batch[0].1] else []) + OfClass(batch[1..], c)
  }

  /** Each class takes the first items that fit, in order of arrival, and counts the others. */
  lemma {:induction false} PutAllKeepsFirst<T>(q: Queues<T>, batch: seq<(Class, T)>, c: Class)
    requires q.Valid()
    ensures var r, items, room := PutAll(q, batch), OfClass(batch, c), q.sizes[c] - |q.queues[c]|;
            && r.queues[c] == q.queues[c] + items[..Min(room, |items|)]
            && r.dropped[c] == q.dropped[c] + |items| - Min(room, |items|)
    decreases |batch|
  {
    hide Put;
    if batch != [] {
      var d, item, rest := batch[0].0, batch[0].1, OfClass(batch[1..], c);
      PutTouchesOneClass(q, d, item, c);
      PutAllKeepsFirst(Put(q, d, item), batch[1..], c);
      OfClassHead(batch, c);
      hide OfClass;
      if d == c && HasRoom(q, c) {
        var room := q.sizes[c] - |q.queues[c]|;
        PrefixOfCons(item, rest, room);
        Regrouped(q.queues[c], [item], rest[..Min(room - 1, |rest|)]);
      }
    }
  }

  lemma PutTouchesOneClass<T>(q: Queues<T>, d: Class, item: T, c: Class)
    requires q.Valid()
    ensures var r := Put(q, d, item);
            && r.queues[c] == (if d == c && HasRoom(q, c) then q.queues[c] + [item] else q.queues[c])
            && r.dropped[c] == (if d == c && !HasRoom(q, c) then q.dropped[c] + 1 else q.dropped[c])
  {
  }

  lemma OfClassHead<T>(batch: seq<(Class, T)>, c: Class)
    requires batch != []
    ensures OfClass(batch, c) == if batch[0].0 == c then [batch[0].1] + OfClass(batch[1..], c)
            else OfClass(batch[1..], c)
  {
  }

  lemma PrefixOfCons<T>(x: T, rest: seq<T>, room: nat)
    requires room > 0
    ensures ([x] + rest)[..Min(room, |rest| + 1)] == [x] + rest[..Min(room - 1, |rest|)]
  {
  }

  /** For any burst into empty queues: what comes out is, class by class in priority order, the
      first items of that class up to its capacity, and each counter grows by the excess. */
  lemma BurstIsClassByClass<T>(q: Queues<T>, batch: seq<(Class, T)>)
    requires q.Valid() && forall c: Class :: q.queues[c] == []
    ensures Concatenated(PutAll(q, batch)) ==
            FirstFitting(q, batch, 0) + FirstFitting(q, batch, 1) + FirstFitting(q, batch, 2)
              + FirstFitting(q, batch, 3)
    ensures forall c: Class ::
            PutAll(q, batch).dropped[c] == q.dropped[c] + |OfClass(batch, c)| - |FirstFitting(q, batch, c)|
  {
    forall c: Class
      ensures PutAll(q, batch).queues[c] == FirstFitting(q, batch, c)
      ensures PutAll(q, batch).dropped[c] == q.dropped[c] + |OfClass(batch, c)| - |FirstFitting(q, batch, c)|
    {
      PutAllKeepsFirst(q, batch, c);
    }
  }

  function FirstFitting<T>(q: Queues<T>, batch: seq<(Class, T)>, c: Class): seq<T>
    requires q.Valid()
  {
    OfClass(batch, c)[..Min(q.sizes[c], |OfClass(batch, c)|)]
  }

  // ---- Arbitrary interleavings ----------------------------------------------------------------

  datatype Event<T> = PutEvent(c: Class, item: T) | GetEvent

  /** The queues and, per class, what was offered, what was accepted and what was taken out. */
  datatype History<T> = History(q: Queues<T>, offered: seq<nat>, accepted: seq<seq<T>>, taken: seq<seq<T>>)

  function Start<T>(sizes: seq<nat>): History<T>
    requires |sizes| == CLASSES
  {
    History(New(sizes), [0, 0, 0, 0], [[], [], [], []], [[], [], [], []])
  }

  predicate Shaped<T>(h: History<T>) {
    h.q.Valid() && |h.offered| == |h.accepted| == |h.taken| == CLASSES
  }

  function Step<T>(h: History<T>, e: Event<T>): (r: History<T>)
    requires Shaped(h)
    ensures Shaped(r)
  {
    match e
    case PutEvent(c, item) =>
      History(Put(h.q, c, item), h.offered[c := h.offered[c] + 1],
              if HasRoom(h.q, c) then h.accepted[c := h.accepted[c] + [item]] else h.accepted, h.taken)
    case GetEvent =>
      var c := FirstBusy(h.q, 0);
      h.(q := AfterGet(h.q), taken := if c < CLASSES then h.taken[c := h.taken[c] + [h.q.queues[c][0]]] else h.taken)
  }

  function Run<T>(h: History<T>, events: seq<Event<T>>): (r: History<T>)
    requires Shaped(h)
    ensures Shaped(r)
    decreases |events|
  {
    if events == [] then h else Run(Step(h, events[0]), events[1..])
  }

  /** Per class: accepted is taken followed by queued, so each class is first in first out; no
      queue exceeds its size; and everything offered was accepted or counted as dropped. */
  ghost predicate Conserved<T>(h: History<T>) {
    && Shaped(h)
    && forall c: Class ::
         && h.accepted[c] == h.taken[c] + h.q.queues[c]
         && h.offered[c] == |h.accepted[c]| + h.q.dropped[c]
  }

  lemma StepKeepsConserved<T>(h: History<T>, e: Event<T>)
    requires Conserved(h)
    ensures Conserved(Step(h, e))
  {
    var after := Step(h, e);
    var busy := FirstBusy(h.q, 0);
    forall c: Class ensures after.accepted[c] == after.taken[c] + after.q.queues[c] {
      if e.GetEvent? && c == busy {
        assert h.q.queues[c] == [h.q.queues[c][0]] + h.q.queues[c][1..];
      }
    }
  }

  lemma {:induction false} RunKeepsConserved<T>(h: History<T>, events: seq<Event<T>>)
    requires Conserved(h)
    ensures Conserved(Run(h, events))
    decreases |events|
  {
    if events != [] {
      StepKeepsConserved(h, events[0]);
      RunKeepsConserved(Step(h, events[0]), events[1..]);
    }
  }

  lemma EveryRunIsConserved<T>(sizes: seq<nat>, events: seq<Event<T>>)
    requires |sizes| == CLASSES
    ensures Conserved(Run(Start(sizes), events))
  {
    RunKeepsConserved(Start(sizes), events);
  }
}

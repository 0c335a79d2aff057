/** A channel end to end: one sender, one receiver and a network that may drop, duplicate and
    reorder every transmission (src/channel.rs). */
module Delivery {
  import opened Octets
  import opened Envelope
  import opened Inbound
  import Outbound

  const MSGTYPE_SYSTEM_MIN: U16 := 0xf000

  /** Sender, receiver and history. `log` is everything handed to subscribers, in order;
      `decoded` is the set of accepted indices that have arrived when somebody could take them. */
  datatype Channel<M> = Channel(
    sender: Outbound.Sender,
    inbound: State<M>,
    registry: set<U16>,
    log: seq<Held<M>>,
    decoded: set<nat>)

  datatype Event =
    | Outgoing(event: Outbound.Event)
    | Arrival(transmission: nat)
    | Register(messageType: U16, system: bool)

  /** What the receiving application does with message types: how it unpacks its primary type,
      which types are registered before the first packet and which never are. A plain channel
      has both sets empty. */
  datatype Port<!M> = Port(unpack: Unpacker<M>, always: set<U16>, never: set<U16>)

  function Open<M>(slow: bool, port: Port<M>): Channel<M> {
    Channel(Outbound.Start(slow), Empty(), port.always, [], {})
  }

  predicate RegistryFits<M>(port: Port<M>, registry: set<U16>) {
    port.always <= registry && port.never !! registry
  }

  ghost function Indices(accepted: seq<Outbound.Message>, hash: Outbound.Hash): set<nat> {
    set i: nat | i < |accepted| && accepted[i].hash == hash
  }

  /** Somebody can take a message: its type is registered, or the primary type unpacks it. */
  predicate Takeable<M>(port: Port<M>, registry: set<U16>, messageType: U16, payload: Bytes) {
    messageType in registry || port.unpack(payload, messageType).Some?
  }

  /** `held` is `m` as it goes to the subscriber that can take it; registered types come first. */
  predicate HandedAs<M(==)>(port: Port<M>, registry: set<U16>, m: Outbound.Message, held: Held<M>) {
    if m.messageType in registry then held == Registered(m.messageType, m.payload)
    else held.Primary? && port.unpack(m.payload, m.messageType) == Some(held.message)
  }

  /** Any earlier transmission may arrive now, as often as the network likes, or never. */
  ghost function Arrive<M>(c: Channel<M>, port: Port<M>, packet: Outbound.Packet): Channel<M> {
    var (inbound, out) := Receive(c.inbound, port.unpack, c.registry, packet.raw);
    var header := DeenvelopeRaw(packet.raw);
    var decodes := header.Some?
      && Takeable(port, c.registry, header.value.messageType, packet.raw[HEADER_LEN..]);
    c.(inbound := inbound,
       log := c.log + out,
       decoded := if decodes then c.decoded + Indices(c.sender.accepted, packet.hash) else c.decoded)
  }

  ghost function Step<M>(c: Channel<M>, port: Port<M>, e: Event): Channel<M> {
    match e
    case Outgoing(event) => c.(sender := Outbound.Step(c.sender, event))
    case Arrival(n) => if n < |c.sender.wire| then Arrive(c, port, c.sender.wire[n]) else c
    case Register(messageType, system) =>
      if (messageType >= MSGTYPE_SYSTEM_MIN && !system) || messageType in port.never then c
      else c.(registry := c.registry + {messageType})
  }

  ghost function Run<M>(c: Channel<M>, port: Port<M>, events: seq<Event>): Channel<M>
    decreases |events|
  {
    if events == [] then c else Step(Run(c, port, events[..|events| - 1]), port, events[|events| - 1])
  }

  /** `held` is the message `m`, for whichever subscriber it went to. */
  ghost predicate Carries<M(!new)>(port: Port<M>, held: Held<M>, m: Outbound.Message) {
    match held
    case Primary(message) => m.messageType !in port.always && port.unpack(m.payload, m.messageType) == Some(message)
    case Registered(messageType, payload) =>
      m.messageType !in port.never && messageType == m.messageType && payload == m.payload
  }

  // ---- Sequence numbers and unbounded indices ----------------------------------------

  /** The index in `[r, r + LAP)` whose sequence number is `k`. */
  function Position(k: U16, r: nat): nat {
    if k >= Wrap(r) then r - Wrap(r) + k else r - Wrap(r) + LAP + k
  }

  lemma PositionInverts(i: nat, r: nat)
    requires r <= i < r + LAP
    ensures Position(Wrap(i), r) == i
  {
  }

  lemma PositionAdvances(k: U16, r: nat)
    requires k != Wrap(r)
    ensures Position(k, r + 1) == Position(k, r)
  {
  }

  /** Exactly when the filter sorts the packet with index `i` correctly while index `r` is next:
      a fresh one unless its sequence number falls among the 48 below `r`'s, an old one only
      if it is at most 48 back (modulo the lap) and not across a wrap. */
  predicate SortedCorrectly(i: nat, r: nat) {
    if i >= r then
      var ahead := (i - r) % LAP;
      ahead < LAP - WINDOW_MAX || ahead < LAP - Wrap(r)
    else
      var back := (r - i) % LAP;
      1 <= back <= WINDOW_MAX && back <= Wrap(r)
  }

  lemma FilterIsExact(i: nat, r: nat)
    ensures (!OutOfWindow(Wrap(i), Wrap(r)) <==> i >= r) <==> SortedCorrectly(i, r)
  {
    hide Wrap;
    if i >= r {
      WrapAhead(r, i - r);
    } else {
      WrapAhead(i, r - i);
    }
  }

  /** Sequence numbers wrap at most once on the way to an index less than a lap further on. */
  lemma WrapAhead(r: nat, d: nat)
    ensures Wrap(r + d) == if Wrap(r) + d % LAP < LAP then Wrap(r) + d % LAP else Wrap(r) + d % LAP - LAP
  {
    var q, p := r / LAP, d / LAP;
    assert r + d == (q + p) * LAP + (Wrap(r) + d % LAP);
  }

  // ---- One drain, one arrival ---------------------------------------------------------

  /** Whatever the reorder buffer holds for an index the sender has reached is that message. */
  ghost predicate Holds<M(!new)>(port: Port<M>, accepted: seq<Outbound.Message>, decoded: set<nat>,
                                 onHold: map<U16, Held<M>>, r: nat)
  {
    forall k :: k in onHold ==>
      && Position(k, r) != |accepted|
      && (Position(k, r) < |accepted| ==>
            Position(k, r) in decoded && Carries(port, onHold[k], accepted[Position(k, r)]))
  }

  lemma HoldsAdvances<M(!new)>(port: Port<M>, accepted: seq<Outbound.Message>, decoded: set<nat>,
                               onHold: map<U16, Held<M>>, r: nat)
    requires Holds(port, accepted, decoded, onHold, r)
    ensures Holds(port, accepted, decoded, onHold - {Wrap(r)}, r + 1)
  {
    hide Carries;
    forall k | k in onHold - {Wrap(r)} ensures Position(k, r + 1) == Position(k, r) {
      PositionAdvances(k, r);
    }
    hide Position;
  }

  /** From `s`, waiting for index `r`, the drain hands out `out` and stops in `t`: `out` is the
      messages from `r` on, in order, without gap and never past the last accepted one, and the
      rest of the buffer stays where it was. */
  ghost predicate Drains<M(!new)>(port: Port<M>, accepted: seq<Outbound.Message>, decoded: set<nat>, s: State<M>,
                                  r: nat, t: State<M>, out: seq<Held<M>>)
  {
    && r + |out| <= |accepted|
    && t.sequence == Wrap(r + |out|) && t.sequence !in t.onHold
    && (forall j :: r <= j < r + |out| ==> j in decoded && Carries(port, out[j - r], accepted[j]))
    && (forall k :: k in t.onHold ==> k in s.onHold && t.onHold[k] == s.onHold[k])
    && (forall k :: k in t.onHold ==> Position(k, r) == Position(k, r + |out|))
    && (forall k :: k in s.onHold ==> k in t.onHold || Position(k, r) < r + |out|)
  }

  lemma DrainsOneMore<M(!new)>(port: Port<M>, accepted: seq<Outbound.Message>, decoded: set<nat>, s: State<M>, r: nat,
                               t: State<M>, out: seq<Held<M>>)
    requires r < |accepted| && s.sequence == Wrap(r) && s.sequence in s.onHold
    requires r in decoded && Carries(port, s.onHold[s.sequence], accepted[r])
    requires Drains(port, accepted, decoded, State(s.onHold - {s.sequence}, NextSequence(s.sequence)), r + 1, t, out)
    ensures Drains(port, accepted, decoded, s, r, t, [s.onHold[s.sequence]] + out)
  {
    forall k | k in s.onHold
      ensures if k == s.sequence then Position(k, r) == r else Position(k, r + 1) == Position(k, r)
    {
      if k != s.sequence {
        PositionAdvances(k, r);
      }
    }
    hide Position, Carries, Wrap;
    assert r + |[s.onHold[s.sequence]] + out| == r + 1 + |out|;
  }

  lemma {:induction false} DrainInOrder<M(!new)>(port: Port<M>, accepted: seq<Outbound.Message>, decoded: set<nat>,
                                                 s: State<M>, r: nat)
    requires r <= |accepted| && s.sequence == Wrap(r)
    requires Holds(port, accepted, decoded, s.onHold, r)
    ensures Drains(port, accepted, decoded, s, r, Drain(s).0, Drain(s).1)
    decreases |s.onHold|
  {
    hide Drains, Wrap, Position, Carries;
    if s.sequence in s.onHold {
      PositionInverts(r, r);
      WrapSuccessor(r);
      var rest := State(s.onHold - {s.sequence}, NextSequence(s.sequence));
      HoldsAdvances(port, accepted, decoded, s.onHold, r);
      DrainInOrder(port, accepted, decoded, rest, r + 1);
      DrainsOneMore(port, accepted, decoded, s, r, Drain(rest).0, Drain(rest).1);
    } else {
      DrainsNothing(port, accepted, decoded, s, r);
    }
  }

  lemma DrainsNothing<M(!new)>(port: Port<M>, accepted: seq<Outbound.Message>, decoded: set<nat>, s: State<M>, r: nat)
    requires r <= |accepted| && s.sequence == Wrap(r) && s.sequence !in s.onHold
    ensures Drains(port, accepted, decoded, s, r, s, [])
  {
    hide Wrap, Position, Carries;
  }

  /** The receiver is at index `|log|`: everything before it was handed out exactly once and in
      order, it has not been seen, and everything seen after it is waiting. */
  ghost predicate InOrder<M(!new)>(port: Port<M>, accepted: seq<Outbound.Message>, s: State<M>, log: seq<Held<M>>,
                                   decoded: set<nat>)
  {
    && |log| <= |accepted|
    && s.sequence == Wrap(|log|) && s.sequence !in s.onHold
    && (forall j :: 0 <= j < |log| ==> j in decoded && Carries(port, log[j], accepted[j]))
    && |log| !in decoded
    && (forall j :: j in decoded ==> j < |accepted| && (j > |log| ==> j < |log| + LAP && Wrap(j) in s.onHold))
  }

  lemma DrainsKeepsInOrder<M(!new)>(port: Port<M>, accepted: seq<Outbound.Message>, s: State<M>, log: seq<Held<M>>,
                                    decoded: set<nat>, t: State<M>, out: seq<Held<M>>)
    requires Drains(port, accepted, decoded, s, |log|, t, out)
    requires forall j :: 0 <= j < |log| ==> j < |accepted| && j in decoded && Carries(port, log[j], accepted[j])
    requires forall j :: j in decoded ==> j < |accepted| && (j >= |log| ==> j < |log| + LAP && Wrap(j) in s.onHold)
    ensures InOrder(port, accepted, t, log + out, decoded)
  {
    var r := |log|;
    var next := r + |out|;
    forall j | j in decoded && j >= next ensures Position(Wrap(j), r) == j {
      PositionInverts(j, r);
    }
    hide Carries, Wrap, Position;
    assert forall j :: r <= j < next ==> (log + out)[j] == out[j - r];
    assert forall j :: j in decoded && j >= next ==> Wrap(j) in t.onHold;
    assert next !in decoded;
  }

  /** Putting index `i` on hold and draining keeps the receiver in order. */
  lemma InsertKeepsInOrder<M(!new)>(port: Port<M>, accepted: seq<Outbound.Message>, s: State<M>, log: seq<Held<M>>,
                                    decoded: set<nat>, i: nat, held: Held<M>)
    requires InOrder(port, accepted, s, log, decoded)
    requires i < |accepted| && i < |log| + LAP
    requires Holds(port, accepted, decoded + {i}, s.onHold[Wrap(i) := held], |log|)
    ensures var (t, out) := Drain(s.(onHold := s.onHold[Wrap(i) := held]));
            InOrder(port, accepted, t, log + out, decoded + {i})
  {
    hide Carries, Wrap, Drains, Holds, Drain;
    var filled := s.(onHold := s.onHold[Wrap(i) := held]);
    DrainInOrder(port, accepted, decoded + {i}, filled, |log|);
    DrainsKeepsInOrder(port, accepted, filled, log, decoded + {i}, Drain(filled).0, Drain(filled).1);
  }

  // ---- Whole runs ---------------------------------------------------------------------

  /** What the receiver does with the packet of the `i`-th accepted message. */
  lemma ReceiveAccepted<M(!new)>(port: Port<M>, c: Channel<M>, packet: Outbound.Packet, i: nat)
    requires i < |c.sender.accepted| && packet.raw == Outbound.RawOf(c.sender.accepted, i)
    requires RegistryFits(port, c.registry)
    ensures var m := c.sender.accepted[i];
            var held := Decode(port.unpack, c.registry, m.messageType, m.payload);
            var d := Arrive(c, port, packet);
            && d.sender == c.sender && d.registry == c.registry
            && (held.Some? <==> Takeable(port, c.registry, m.messageType, m.payload))
            && (held.None? ==> d == c)
            && (held.Some? ==>
                  && Carries(port, held.value, m) && HandedAs(port, c.registry, m, held.value)
                  && d.decoded == c.decoded + Indices(c.sender.accepted, packet.hash)
                  && (OutOfWindow(Wrap(i), c.inbound.sequence) ==> d.inbound == c.inbound && d.log == c.log)
                  && (!OutOfWindow(Wrap(i), c.inbound.sequence) ==>
                        var step := Drain(c.inbound.(onHold := c.inbound.onHold[Wrap(i) := held.value]));
                        d.inbound == step.0 && d.log == c.log + step.1))
  {
    var m := c.sender.accepted[i];
    EnvelopeRoundTrip(m.payload, m.messageType, Wrap(i));
    hide EnvelopeRaw, DeenvelopeRaw, Drain, OutOfWindow, Indices, Wrap;
    assert c.log + [] == c.log;
  }

  lemma IndicesOfAccepted(accepted: seq<Outbound.Message>, i: nat)
    requires i < |accepted| && Outbound.DistinctHashes(accepted)
    ensures Indices(accepted, accepted[i].hash) == {i}
  {
    forall j | j in Indices(accepted, accepted[i].hash) ensures !(j < i) && !(i < j) {}
  }

  /** A decodable packet of a message already handed out arrives again. Sorted correctly, it changes
      nothing. Otherwise it is handed out once more at once, if it has the number waited for, or
      put on hold under its old number for a lap to come. */
  lemma OldPacketIsHeldIff<M(!new)>(port: Port<M>, c: Channel<M>, packet: Outbound.Packet, i: nat, held: Held<M>)
    requires i < |c.log| && i < |c.sender.accepted| && packet.raw == Outbound.RawOf(c.sender.accepted, i)
    requires RegistryFits(port, c.registry)
    requires c.inbound.sequence == Wrap(|c.log|) && c.inbound.sequence !in c.inbound.onHold
    requires var m := c.sender.accepted[i];
             Decode(port.unpack, c.registry, m.messageType, m.payload) == Some(held)
    ensures var d := Arrive(c, port, packet);
            && Carries(port, held, c.sender.accepted[i]) && d.sender == c.sender && d.registry == c.registry
            && (SortedCorrectly(i, |c.log|) ==> d.inbound == c.inbound && d.log == c.log)
            && (!SortedCorrectly(i, |c.log|) && Wrap(i) != c.inbound.sequence ==>
                  d.inbound == c.inbound.(onHold := c.inbound.onHold[Wrap(i) := held]) && d.log == c.log)
            && (!SortedCorrectly(i, |c.log|) && Wrap(i) == c.inbound.sequence ==>
                  |d.log| > |c.log| && d.log[..|c.log|] == c.log && d.log[|c.log|] == held)
  {
    hide Arrive, Wrap, OutOfWindow, SortedCorrectly, Carries, Decode, Outbound.RawOf;
    ReceiveAccepted(port, c, packet, i);
    FilterIsExact(i, |c.log|);
    var filled := c.inbound.(onHold := c.inbound.onHold[Wrap(i) := held]);
    assert Wrap(i) == c.inbound.sequence ==> Drain(filled).1 != [] && Drain(filled).1[0] == held;
  }

  /** A packet the filter takes for fresh arrives, and rightly so. If nobody can take it, nothing
      changes. If it is the one waited for it is handed out at once, else it is held under its
      number, in either case for the subscriber its type is registered for, or unpacked. */
  lemma FreshPacketIsTaken<M(!new)>(port: Port<M>, c: Channel<M>, packet: Outbound.Packet, i: nat)
    requires |c.log| <= i < |c.sender.accepted| && packet.raw == Outbound.RawOf(c.sender.accepted, i)
    requires RegistryFits(port, c.registry) && SortedCorrectly(i, |c.log|)
    requires c.inbound.sequence == Wrap(|c.log|) && c.inbound.sequence !in c.inbound.onHold
    ensures var m, d := c.sender.accepted[i], Arrive(c, port, packet);
            if !Takeable(port, c.registry, m.messageType, m.payload) then d == c
            else if Wrap(i) == c.inbound.sequence then
              && |d.log| > |c.log| && d.log[..|c.log|] == c.log
              && HandedAs(port, c.registry, m, d.log[|c.log|])
            else
              && d.log == c.log && d.inbound.sequence == c.inbound.sequence
              && d.inbound.onHold.Keys == c.inbound.onHold.Keys + {Wrap(i)}
              && HandedAs(port, c.registry, m, d.inbound.onHold[Wrap(i)])
              && forall k :: k in c.inbound.onHold && k != Wrap(i) ==> d.inbound.onHold[k] == c.inbound.onHold[k]
  {
    hide Arrive, Wrap, OutOfWindow, SortedCorrectly, Carries, Decode, Outbound.RawOf, Takeable, HandedAs;
    ReceiveAccepted(port, c, packet, i);
    FilterIsExact(i, |c.log|);
    var m := c.sender.accepted[i];
    var held := Decode(port.unpack, c.registry, m.messageType, m.payload);
    if held.Some? {
      var filled := c.inbound.(onHold := c.inbound.onHold[Wrap(i) := held.value]);
      assert Wrap(i) == c.inbound.sequence ==> Drain(filled).1 != [] && Drain(filled).1[0] == held.value;
    }
  }

  ghost predicate Delivers<M(!new)>(port: Port<M>, c: Channel<M>) {
    InOrder(port, c.sender.accepted, c.inbound, c.log, c.decoded)
  }

  /** In the first lap a held key is the index itself, including indices already passed. */
  ghost predicate HoldsFirstLap<M(!new)>(port: Port<M>, accepted: seq<Outbound.Message>, decoded: set<nat>,
                                         onHold: map<U16, Held<M>>)
  {
    forall k :: k in onHold ==> k < |accepted| && k in decoded && Carries(port, onHold[k], accepted[k])
  }

  lemma FirstLapHolds<M(!new)>(port: Port<M>, accepted: seq<Outbound.Message>, decoded: set<nat>,
                               onHold: map<U16, Held<M>>, r: nat)
    requires HoldsFirstLap(port, accepted, decoded, onHold) && r <= |accepted| < LAP
    ensures Holds(port, accepted, decoded, onHold, r)
  {
    hide Carries;
    forall k | k in onHold ensures Position(k, r) == k || Position(k, r) > |accepted| {}
  }

  lemma FirstLapArrival<M(!new)>(port: Port<M>, c: Channel<M>, packet: Outbound.Packet, i: nat)
    requires i < |c.sender.accepted| < LAP && Outbound.DistinctHashes(c.sender.accepted)
    requires packet == Outbound.Packet(c.sender.accepted[i].hash, Outbound.RawOf(c.sender.accepted, i))
    requires RegistryFits(port, c.registry)
    requires Delivers(port, c) && HoldsFirstLap(port, c.sender.accepted, c.decoded, c.inbound.onHold)
    ensures var d := Arrive(c, port, packet);
            Delivers(port, d) && HoldsFirstLap(port, d.sender.accepted, d.decoded, d.inbound.onHold)
  {
    hide Wrap, Arrive, Outbound.RawOf, Decode, Carries, OutOfWindow, Drain, Drains, Indices, HoldsFirstLap;
    var accepted, m := c.sender.accepted, c.sender.accepted[i];
    ReceiveAccepted(port, c, packet, i);
    IndicesOfAccepted(accepted, i);
    WrapSmall(i);
    WrapSmall(|c.log|);
    var held := Decode(port.unpack, c.registry, m.messageType, m.payload);
    if held.Some? {
      if OutOfWindow(i, c.inbound.sequence) {
        OldIsBehind(i, |c.log|);
        FirstLapGrows(port, accepted, c.decoded, i, c.inbound.onHold);
      } else {
        FirstLapInsert(port, accepted, c.inbound, c.log, c.decoded, i, held.value);
      }
    }
  }

  lemma OldIsBehind(s: U16, next: U16)
    ensures OutOfWindow(s, next) ==> s < next
  {
  }

  lemma FirstLapGrows<M(!new)>(port: Port<M>, accepted: seq<Outbound.Message>, decoded: set<nat>, i: nat,
                               onHold: map<U16, Held<M>>)
    requires HoldsFirstLap(port, accepted, decoded, onHold)
    ensures HoldsFirstLap(port, accepted, decoded + {i}, onHold)
  {
    hide Carries;
  }

  lemma FirstLapInsert<M(!new)>(port: Port<M>, accepted: seq<Outbound.Message>, s: State<M>, log: seq<Held<M>>,
                                decoded: set<nat>, i: U16, held: Held<M>)
    requires InOrder(port, accepted, s, log, decoded) && HoldsFirstLap(port, accepted, decoded, s.onHold)
    requires i < |accepted| < LAP && Carries(port, held, accepted[i])
    ensures var step := Drain(s.(onHold := s.onHold[i := held]));
            && InOrder(port, accepted, step.0, log + step.1, decoded + {i})
            && HoldsFirstLap(port, accepted, decoded + {i}, step.0.onHold)
  {
    hide Wrap, Carries, Position, Drain, InOrder, Holds;
    WrapSmall(i);
    InOrderSequence(port, accepted, s, log, decoded);
    var filled := s.(onHold := s.onHold[i := held]);
    assert HoldsFirstLap(port, accepted, decoded + {i}, filled.onHold);
    FirstLapHolds(port, accepted, decoded + {i}, filled.onHold, |log|);
    InsertKeepsInOrder(port, accepted, s, log, decoded, i, held);
    DrainInOrder(port, accepted, decoded + {i}, filled, |log|);
  }

  ghost predicate FirstLapInv<M(!new)>(port: Port<M>, slow: bool, c: Channel<M>) {
    && Outbound.Inv(slow, c.sender)
    && RegistryFits(port, c.registry)
    && (|c.sender.accepted| < LAP ==>
          Delivers(port, c) && HoldsFirstLap(port, c.sender.accepted, c.decoded, c.inbound.onHold))
  }

  /** Every transmission is the packet of exactly one accepted message. */
  lemma WireIndex(slow: bool, s: Outbound.Sender, n: nat) returns (i: nat)
    requires Outbound.Inv(slow, s) && n < |s.wire|
    ensures i < |s.accepted| && s.wire[n] == Outbound.Packet(s.accepted[i].hash, Outbound.RawOf(s.accepted, i))
    ensures Outbound.DistinctHashes(s.accepted) && Indices(s.accepted, s.wire[n].hash) == {i}
  {
    hide EnvelopeRaw, Wrap, Outbound.RetryBound;
    assert Outbound.IsAcceptedPacket(s.accepted, s.wire[n]);
    i :| 0 <= i < |s.accepted| && s.accepted[i].hash == s.wire[n].hash
      && s.wire[n].raw == Outbound.RawOf(s.accepted, i);
    IndicesOfAccepted(s.accepted, i);
  }

  lemma SenderStepExtends(s: Outbound.Sender, e: Outbound.Event)
    ensures var t := Outbound.Step(s, e); |s.accepted| <= |t.accepted| && t.accepted[..|s.accepted|] == s.accepted
  {
    hide Outbound.Send, Outbound.HandleProof, Outbound.HandleTimeout;
  }

  lemma InOrderExtends<M(!new)>(port: Port<M>, accepted: seq<Outbound.Message>, more: seq<Outbound.Message>,
                                s: State<M>, log: seq<Held<M>>, decoded: set<nat>)
    requires |accepted| <= |more| && more[..|accepted|] == accepted
    requires InOrder(port, accepted, s, log, decoded)
    ensures InOrder(port, more, s, log, decoded)
  {
    hide Carries, Wrap;
    assert forall j :: 0 <= j < |accepted| ==> more[j] == accepted[j];
  }

  lemma FirstLapStep<M(!new)>(port: Port<M>, slow: bool, c: Channel<M>, e: Event)
    requires FirstLapInv(port, slow, c)
    ensures FirstLapInv(port, slow, Step(c, port, e))
  {
    hide InOrder, Carries, Outbound.Inv, Outbound.RawOf;
    match e
    case Outgoing(event) =>
      Outbound.StepKeepsInv(slow, c.sender, event);
      SenderStepExtends(c.sender, event);
      hide Outbound.Step;
      var more := Outbound.Step(c.sender, event).accepted;
      assert forall j :: 0 <= j < |c.sender.accepted| ==> more[j] == c.sender.accepted[j];
      if |more| < LAP {
        InOrderExtends(port, c.sender.accepted, more, c.inbound, c.log, c.decoded);
      }
    case Arrival(n) =>
      if n < |c.sender.wire| && |c.sender.accepted| < LAP {
        var i := WireIndex(slow, c.sender, n);
        FirstLapArrival(port, c, c.sender.wire[n], i);
        hide HoldsFirstLap;
      }
    case Register(_, _) =>
  }

  lemma {:induction false} FirstLapRun<M(!new)>(port: Port<M>, slow: bool, events: seq<Event>)
    requires port.always !! port.never
    ensures FirstLapInv(port, slow, Run(Open(slow, port), port, events))
    decreases |events|
  {
    if events == [] {
      Outbound.RunKeepsInv(slow, []);
      assert Outbound.Run(Outbound.Start(slow), []) == Outbound.Start(slow);
    } else {
      FirstLapRun(port, slow, events[..|events| - 1]);
      FirstLapStep(port, slow, Run(Open(slow, port), port, events[..|events| - 1]), events[|events| - 1]);
    }
  }

  /** While fewer than 65536 messages have been accepted, and whatever the network does: the
      messages handed to subscribers are the first `k` accepted ones, in order and each once,
      and `k` is the first index that never arrived while somebody could take it. */
  lemma InOrderExactlyOnce<M(!new)>(port: Port<M>, slow: bool, events: seq<Event>)
    requires port.always !! port.never
    requires |Run(Open(slow, port), port, events).sender.accepted| < LAP
    ensures var c := Run(Open(slow, port), port, events);
            var k := |c.log|;
            && k <= |c.sender.accepted|
            && (forall j :: 0 <= j < k ==> Carries(port, c.log[j], c.sender.accepted[j]))
            && (forall j :: 0 <= j < k ==> j in c.decoded) && k !in c.decoded
  {
    FirstLapRun(port, slow, events);
  }

  // ---- Any number of laps ---------------------------------------------------------------

  /** An arrival the filter sorts correctly, at most a lap ahead. */
  ghost predicate Sortable<M>(c: Channel<M>, packet: Outbound.Packet) {
    forall i :: i in Indices(c.sender.accepted, packet.hash) ==> SortedCorrectly(i, |c.log|) && i < |c.log| + LAP
  }

  /** An arrival the window arithmetic was designed for: a packet less than a lap minus 48
      ahead, or one at most 48 back in the same lap. */
  ghost predicate Timely<M>(c: Channel<M>, packet: Outbound.Packet) {
    forall i :: i in Indices(c.sender.accepted, packet.hash) ==>
      var r := |c.log|;
      || r <= i < r + LAP - WINDOW_MAX
      || (i < r <= i + WINDOW_MAX && i / LAP == r / LAP)
  }

  ghost predicate SortableRun<M>(port: Port<M>, c: Channel<M>, events: seq<Event>)
    decreases |events|
  {
    events == [] ||
    var before := events[..|events| - 1];
    var d := Run(c, port, before);
    var last := events[|events| - 1];
    && SortableRun(port, c, before)
    && (last.Arrival? && last.transmission < |d.sender.wire| ==> Sortable(d, d.sender.wire[last.transmission]))
  }

  /** Every held key stands for one index between the next expected and the last accepted. */
  ghost predicate HoldsAhead<M(!new)>(port: Port<M>, accepted: seq<Outbound.Message>, decoded: set<nat>,
                                      onHold: map<U16, Held<M>>, r: nat)
  {
    forall k :: k in onHold ==>
      Position(k, r) < |accepted| && Position(k, r) in decoded && Carries(port, onHold[k], accepted[Position(k, r)])
  }

  lemma TimelyIsSorted(i: nat, r: nat)
    requires r <= i < r + LAP - WINDOW_MAX || (i < r <= i + WINDOW_MAX && i / LAP == r / LAP)
    ensures SortedCorrectly(i, r)
  {
    if i < r {
      assert r - i <= Wrap(r);
    }
  }

  /** Timely arrivals are among those the run theorems below are about. */
  lemma TimelyIsSortable<M>(c: Channel<M>, packet: Outbound.Packet)
    requires Timely(c, packet)
    ensures Sortable(c, packet)
  {
    hide SortedCorrectly;
    forall i | i in Indices(c.sender.accepted, packet.hash) ensures SortedCorrectly(i, |c.log|) && i < |c.log| + LAP {
      TimelyIsSorted(i, |c.log|);
    }
  }

  lemma DrainKeepsAhead<M(!new)>(port: Port<M>, accepted: seq<Outbound.Message>, decoded: set<nat>, s: State<M>, r: nat)
    requires r <= |accepted| && s.sequence == Wrap(r)
    requires HoldsAhead(port, accepted, decoded, s.onHold, r)
    ensures Holds(port, accepted, decoded, s.onHold, r)
    ensures HoldsAhead(port, accepted, decoded, Drain(s).0.onHold, r + |Drain(s).1|)
  {
    DrainInOrder(port, accepted, decoded, s, r);
    hide Wrap, Position, Carries, Drain;
  }

  lemma InOrderSequence<M(!new)>(port: Port<M>, accepted: seq<Outbound.Message>, s: State<M>, log: seq<Held<M>>,
                                 decoded: set<nat>)
    requires InOrder(port, accepted, s, log, decoded)
    ensures s.sequence == Wrap(|log|) && |log| <= |accepted|
  {
  }

  lemma AheadInsert<M(!new)>(port: Port<M>, accepted: seq<Outbound.Message>, s: State<M>, log: seq<Held<M>>,
                             decoded: set<nat>, i: nat, held: Held<M>)
    requires InOrder(port, accepted, s, log, decoded) && HoldsAhead(port, accepted, decoded, s.onHold, |log|)
    requires |log| <= i < |log| + LAP && i < |accepted| && Carries(port, held, accepted[i])
    ensures var step := Drain(s.(onHold := s.onHold[Wrap(i) := held]));
            && InOrder(port, accepted, step.0, log + step.1, decoded + {i})
            && HoldsAhead(port, accepted, decoded + {i}, step.0.onHold, |log + step.1|)
  {
    hide Wrap, Carries, Position, Drain, InOrder, Holds;
    assert s.sequence == Wrap(|log|) by { InOrderSequence(port, accepted, s, log, decoded); }
    PositionInverts(i, |log|);
    var filled := s.(onHold := s.onHold[Wrap(i) := held]);
    assert HoldsAhead(port, accepted, decoded + {i}, filled.onHold, |log|);
    DrainKeepsAhead(port, accepted, decoded + {i}, filled, |log|);
    InsertKeepsInOrder(port, accepted, s, log, decoded, i, held);
  }

  lemma SortableArrival<M(!new)>(port: Port<M>, c: Channel<M>, packet: Outbound.Packet, i: nat)
    requires i < |c.sender.accepted| && Outbound.DistinctHashes(c.sender.accepted)
    requires packet == Outbound.Packet(c.sender.accepted[i].hash, Outbound.RawOf(c.sender.accepted, i))
    requires RegistryFits(port, c.registry)
    requires Delivers(port, c) && HoldsAhead(port, c.sender.accepted, c.decoded, c.inbound.onHold, |c.log|)
    requires Sortable(c, packet)
    ensures var d := Arrive(c, port, packet);
            Delivers(port, d) && HoldsAhead(port, d.sender.accepted, d.decoded, d.inbound.onHold, |d.log|)
  {
    hide Wrap, Outbound.RawOf, Decode, Carries, OutOfWindow, Drain, Arrive, Position;
    var accepted, m := c.sender.accepted, c.sender.accepted[i];
    ReceiveAccepted(port, c, packet, i);
    IndicesOfAccepted(accepted, i);
    assert i in Indices(accepted, packet.hash);
    FilterIsExact(i, |c.log|);
    hide Sortable, Indices, Outbound.DistinctHashes;
    var held := Decode(port.unpack, c.registry, m.messageType, m.payload);
    if held.Some? && i >= |c.log| {
      AheadInsert(port, accepted, c.inbound, c.log, c.decoded, i, held.value);
      hide InOrder, HoldsAhead;
    }
  }

  ghost predicate LapsInv<M(!new)>(port: Port<M>, slow: bool, c: Channel<M>) {
    && Outbound.Inv(slow, c.sender)
    && RegistryFits(port, c.registry)
    && Delivers(port, c)
    && HoldsAhead(port, c.sender.accepted, c.decoded, c.inbound.onHold, |c.log|)
  }

  lemma LapsStep<M(!new)>(port: Port<M>, slow: bool, c: Channel<M>, e: Event)
    requires LapsInv(port, slow, c)
    requires e.Arrival? && e.transmission < |c.sender.wire| ==> Sortable(c, c.sender.wire[e.transmission])
    ensures LapsInv(port, slow, Step(c, port, e))
  {
    hide InOrder, Carries, Outbound.Inv, Outbound.RawOf, Sortable, Position;
    match e
    case Outgoing(event) =>
      Outbound.StepKeepsInv(slow, c.sender, event);
      SenderStepExtends(c.sender, event);
      hide Outbound.Step;
      var more := Outbound.Step(c.sender, event).accepted;
      assert forall j :: 0 <= j < |c.sender.accepted| ==> more[j] == c.sender.accepted[j];
      InOrderExtends(port, c.sender.accepted, more, c.inbound, c.log, c.decoded);
    case Arrival(n) =>
      if n < |c.sender.wire| {
        var i := WireIndex(slow, c.sender, n);
        SortableArrival(port, c, c.sender.wire[n], i);
        hide HoldsAhead;
      }
    case Register(_, _) =>
  }

  lemma {:induction false} LapsRunKeepsInv<M(!new)>(port: Port<M>, slow: bool, events: seq<Event>)
    requires port.always !! port.never && SortableRun(port, Open(slow, port), events)
    ensures LapsInv(port, slow, Run(Open(slow, port), port, events))
    decreases |events|
  {
    if events == [] {
      Outbound.RunKeepsInv(slow, []);
      assert Outbound.Run(Outbound.Start(slow), []) == Outbound.Start(slow);
    } else {
      LapsRunKeepsInv(port, slow, events[..|events| - 1]);
      LapsStep(port, slow, Run(Open(slow, port), port, events[..|events| - 1]), events[|events| - 1]);
    }
  }

  /** Over any number of laps, as long as the filter sorts every arrival correctly: delivery is
      still in order and exactly once, a key on hold stands for one accepted index within the lap
      ahead, and the filter accepts the next such arrival exactly when it is fresh, in which case
      the slot it goes to is empty or holds that same message. */
  lemma ManyLaps<M(!new)>(port: Port<M>, slow: bool, events: seq<Event>, n: nat)
    requires port.always !! port.never && SortableRun(port, Open(slow, port), events)
    ensures var c := Run(Open(slow, port), port, events);
            var r := |c.log|;
            && Delivers(port, c)
            && (forall j :: 0 <= j < r ==> Carries(port, c.log[j], c.sender.accepted[j]))
            && (n < |c.sender.wire| && Sortable(c, c.sender.wire[n]) ==>
                  exists i ::
                    && 0 <= i < |c.sender.accepted|
                    && c.sender.wire[n] == Outbound.Packet(c.sender.accepted[i].hash,
                         Outbound.RawOf(c.sender.accepted, i))
                    && (!OutOfWindow(Wrap(i), c.inbound.sequence) <==> i >= r)
                    && (i >= r && Wrap(i) in c.inbound.onHold ==>
                          Carries(port, c.inbound.onHold[Wrap(i)], c.sender.accepted[i])))
  {
    LapsRunKeepsInv(port, slow, events);
    hide Run, Carries, SortableRun, Outbound.RawOf, SortedCorrectly;
    var c := Run(Open(slow, port), port, events);
    if n < |c.sender.wire| && Sortable(c, c.sender.wire[n]) {
      var i := WireIndex(slow, c.sender, n);
      assert i in Indices(c.sender.accepted, c.sender.wire[n].hash);
      hide Outbound.Inv, Indices;
      FilterIsExact(i, |c.log|);
      if i >= |c.log| {
        PositionInverts(i, |c.log|);
      }
      hide Sortable, Wrap, OutOfWindow, Position;
    }
  }

  ghost predicate TimelyRun<M>(port: Port<M>, c: Channel<M>, events: seq<Event>)
    decreases |events|
  {
    events == [] ||
    var before := events[..|events| - 1];
    var d := Run(c, port, before);
    var last := events[|events| - 1];
    && TimelyRun(port, c, before)
    && (last.Arrival? && last.transmission < |d.sender.wire| ==> Timely(d, d.sender.wire[last.transmission]))
  }

  /** In particular over any number of laps of timely arrivals. */
  lemma {:induction false} TimelyLaps<M(!new)>(port: Port<M>, slow: bool, events: seq<Event>)
    requires port.always !! port.never && TimelyRun(port, Open(slow, port), events)
    ensures SortableRun(port, Open(slow, port), events) && Delivers(port, Run(Open(slow, port), port, events))
    decreases |events|
  {
    hide Timely, Sortable, InOrder, Step;
    if events != [] {
      var before, last := events[..|events| - 1], events[|events| - 1];
      TimelyLaps(port, slow, before);
      var d := Run(Open(slow, port), port, before);
      if last.Arrival? && last.transmission < |d.sender.wire| {
        TimelyIsSortable(d, d.sender.wire[last.transmission]);
      }
    }
    LapsRunKeepsInv(port, slow, events);
  }
}

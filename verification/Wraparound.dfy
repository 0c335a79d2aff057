/** Why the in-order guarantee of module Delivery stops at 65536 messages: a run in which the
    network delivers one packet twice and the receiver hands one message out twice. */
module Wraparound {
  import opened Octets
  import opened Envelope
  import opened Inbound
  import opened Delivery
  import Outbound

  const GOOD_LINK: Outbound.Outlet := Outbound.Outlet(true, false, true, 500, true, true)

  /** Message `n` is sent, proven and received before the next one. */
  function Round(n: nat): seq<Event> {
    [Outgoing(Outbound.SendEvent(GOOD_LINK, 0, [], n)), Outgoing(Outbound.ProofEvent(n, 0.0)), Arrival(n)]
  }

  function Rounds(from: nat, to: nat): seq<Event>
    requires from <= to
  {
    if from == to then [] else Rounds(from, to - 1) + Round(to - 1)
  }

  lemma RunAppends<M>(c: Channel<M>, port: Port<M>, before: seq<Event>, more: seq<Event>)
    ensures Run(c, port, before + more) == Run(Run(c, port, before), port, more)
    decreases |more|
  {
    if more == [] {
      assert before + more == before;
    } else {
      assert (before + more)[..|before + more| - 1] == before + more[..|more| - 1];
      RunAppends(c, port, before, more[..|more| - 1]);
    }
  }

  lemma RunThree<M>(c: Channel<M>, port: Port<M>, e: seq<Event>)
    requires |e| == 3
    ensures Run(c, port, e) == Step(Step(Step(c, port, e[0]), port, e[1]), port, e[2])
  {
    hide Step;
    assert e[..2][..1] == e[..1] && e[..1][..0] == [];
    assert Run(c, port, e[..0]) == c;
    assert Run(c, port, e[..1]) == Step(c, port, e[0]);
    assert Run(c, port, e[..2]) == Step(Step(c, port, e[0]), port, e[1]);
  }

  /** The sender after `n` such messages. */
  ghost predicate SentAndProven(s: Outbound.Sender, n: nat) {
    && |s.accepted| == |s.wire| == n
    && (forall i :: 0 <= i < n ==> s.accepted[i] == Outbound.Message(i, 0, []))
    && (forall i :: 0 <= i < n ==> s.wire[i] == Outbound.Packet(i, Outbound.RawOf(s.accepted, i)))
    && s.out.sent == map[] && s.out.nextSequence == Wrap(n)
    && 1 <= s.out.params.window
  }

  lemma SendAndProve(s: Outbound.Sender, n: nat)
    requires SentAndProven(s, n)
    ensures SentAndProven(Outbound.Step(Outbound.Step(s, Round(n)[0].event), Round(n)[1].event), n + 1)
  {
    hide EnvelopeRaw;
    assert n !in Outbound.Hashes(s.accepted);
    assert SizeAccepted(500, 0);
    var sent := Outbound.Step(s, Round(n)[0].event);
    assert sent.accepted == s.accepted + [Outbound.Message(n, 0, [])];
    assert sent.wire == s.wire + [Outbound.Packet(n, EnvelopeRaw([], 0, Some(Wrap(n))))];
    WrapSuccessor(n);
    hide Wrap;
    assert sent.out.nextSequence == Wrap(n + 1);
    forall i | 0 <= i <= n ensures sent.wire[i] == Outbound.Packet(i, Outbound.RawOf(sent.accepted, i)) {
      assert sent.accepted[i] == Outbound.Message(i, 0, []);
      if i < n {
        assert sent.wire[i] == s.wire[i] == Outbound.Packet(i, Outbound.RawOf(s.accepted, i));
      }
    }
    assert sent.out.sent.Keys == {n};
    assert (sent.out.sent - {n}).Keys == {};
  }

  /** The whole channel after `n` such messages, with `stale` left in the reorder buffer. */
  ghost predicate After<M>(c: Channel<M>, n: nat, stale: map<U16, Held<M>>) {
    SentAndProven(c.sender, n) && c.inbound == State(stale, Wrap(n)) && c.registry == {} && |c.log| == n
  }

  lemma OneRound<M(!new)>(c: Channel<M>, port: Port<M>, n: nat,
                          stale: map<U16, Held<M>>) returns (d: Channel<M>, held: Held<M>)
    requires After(c, n, stale) && port.always == port.never == {} && port.unpack([], 0).Some?
    ensures d == Run(c, port, Round(n))
    ensures SentAndProven(d.sender, n + 1) && d.registry == {}
    ensures var step := Drain(State(stale[Wrap(n) := held], Wrap(n))); d.inbound == step.0 && d.log == c.log + step.1
  {
    SendAndProve(c.sender, n);
    RunThree(c, port, Round(n));
    hide EnvelopeRaw, Wrap, Drain, Outbound.Step, Outbound.RawOf, Run;
    d := Run(c, port, Round(n));
    var b := c.(sender := Outbound.Step(Outbound.Step(c.sender, Round(n)[0].event), Round(n)[1].event));
    assert d == Arrive(b, port, b.sender.wire[n]);
    hide Arrive, Step;
    assert b.sender.accepted[n] == Outbound.Message(n, 0, []);
    ReceiveAccepted(port, b, b.sender.wire[n], n);
    hide SentAndProven, Carries;
    held := Decode(port.unpack, {}, 0, []).value;
    assert !OutOfWindow(Wrap(n), Wrap(n));
  }

  lemma DrainOne<M>(stale: map<U16, Held<M>>, sequence: U16, held: Held<M>)
    requires sequence !in stale && NextSequence(sequence) !in stale
    ensures Drain(State(stale[sequence := held], sequence)).0 == State(stale, NextSequence(sequence))
    ensures Drain(State(stale[sequence := held], sequence)).1 == [held]
  {
    var filled := stale[sequence := held];
    assert filled - {sequence} == stale;
  }

  lemma {:induction false} InOrderRounds<M(!new)>(c: Channel<M>, port: Port<M>, from: nat, to: nat,
                                                  stale: map<U16, Held<M>>)
    requires After(c, from, stale) && port.always == port.never == {} && port.unpack([], 0).Some? && from <= to < LAP
    requires forall k :: k in stale ==> k < from
    ensures After(Run(c, port, Rounds(from, to)), to, stale)
  {
    hide After, Run, Round;
    if from < to {
      InOrderRounds(c, port, from, to - 1, stale);
      RunAppends(c, port, Rounds(from, to - 1), Round(to - 1));
      OneMoreRound(Run(c, port, Rounds(from, to - 1)), port, to - 1, stale);
    } else {
      NoEvents(c, port);
    }
  }

  lemma NoEvents<M>(c: Channel<M>, port: Port<M>)
    ensures Run(c, port, []) == c
  {
  }

  lemma OneMoreRound<M(!new)>(c: Channel<M>, port: Port<M>, n: nat, stale: map<U16, Held<M>>)
    requires After(c, n, stale) && port.always == port.never == {} && port.unpack([], 0).Some? && n + 1 < LAP
    requires forall k :: k in stale ==> k < n
    ensures After(Run(c, port, Round(n)), n + 1, stale)
  {
    hide SentAndProven, Run, Round, Drain, Wrap;
    var d, held := OneRound(c, port, n, stale);
    WrapSmall(n);
    WrapSmall(n + 1);
    WrapSuccessor(n);
    DrainOne(stale, n, held);
  }

  /** `n` messages arrive, then packet 0 once more, then the rest of the lap. */
  function DuplicateRun(n: nat): seq<Event>
    requires n < LAP - 1
  {
    Rounds(0, n) + [Arrival(0)] + Rounds(n, LAP - 1) + Round(LAP - 1)
  }

  /** Packet 0 arrives again after 49 or more messages: too old for the filter, which takes it
      for the lap to come and keeps it. */
  lemma LateDuplicateIsHeld<M(!new)>(b: Channel<M>, port: Port<M>, n: nat) returns (stale: map<U16, Held<M>>)
    requires After(b, n, map[]) && WINDOW_MAX < n < LAP
    requires port.always == port.never == {} && port.unpack([], 0).Some?
    ensures After(Arrive(b, port, b.sender.wire[0]), n, stale) && stale.Keys == {0}
  {
    hide Arrive, Carries, Outbound.RawOf;
    assert b.sender.accepted[0] == Outbound.Message(0, 0, []);
    var held := Decode(port.unpack, {}, 0, []).value;
    WrapSmall(n);
    WrapSmall(0);
    OldPacketIsHeldIff(port, b, b.sender.wire[0], 0, held);
    hide SentAndProven;
    stale := map[0 := held];
    assert b.inbound.onHold[0 := held] == stale;
  }

  /** At the end of the lap the held duplicate is next in line. */
  lemma DrainAcrossTheWrap<M>(stale: map<U16, Held<M>>, held: Held<M>)
    requires stale.Keys == {0}
    ensures |Drain(State(stale[65535 := held], 65535)).1| == 2
  {
    var filled := stale[65535 := held];
    assert filled - {65535} == stale;
    assert NextSequence(65535) == 0 && NextSequence(0) == 1;
    assert 1 !in stale - {0};
    assert Drain(State(stale - {0}, 1)).1 == [];
    assert Drain(State(stale, 0)).1 == [stale[0]];
  }

  lemma EndOfLap<M(!new)>(c: Channel<M>, port: Port<M>, stale: map<U16, Held<M>>)
    requires After(c, LAP - 1, stale) && stale.Keys == {0}
    requires port.always == port.never == {} && port.unpack([], 0).Some?
    ensures var d := Run(c, port, Round(LAP - 1)); |d.sender.accepted| == LAP && |d.log| == LAP + 1
  {
    hide Run, Round;
    var d, held := OneRound(c, port, LAP - 1, stale);
    WrapSmall(LAP - 1);
    DrainAcrossTheWrap(stale, held);
  }

  /** One duplicated packet, 65536 accepted messages, 65537 deliveries. */
  lemma DeliversTwiceAfterALap<M(!new)>(port: Port<M>, n: nat)
    requires WINDOW_MAX < n < LAP - 1
    requires port.always == port.never == {} && port.unpack([], 0).Some?
    ensures var c := Run(Open(false, port), port, DuplicateRun(n));
            |c.sender.accepted| == LAP && |c.log| == LAP + 1
  {
    hide Rounds, Round, Arrive, Outbound.RawOf;
    var start := Open(false, port);
    var early := Rounds(0, n) + [Arrival(0)];
    InOrderRounds(start, port, 0, n, map[]);
    var b := Run(start, port, Rounds(0, n));
    assert early[..|early| - 1] == Rounds(0, n);
    var c := Run(start, port, early);
    assert c == Arrive(b, port, b.sender.wire[0]);
    hide Run, Step;
    var stale := LateDuplicateIsHeld(b, port, n);
    InOrderRounds(c, port, n, LAP - 1, stale);
    RunAppends(start, port, early, Rounds(n, LAP - 1));
    RunAppends(start, port, early + Rounds(n, LAP - 1), Round(LAP - 1));
    hide After;
    EndOfLap(Run(c, port, Rounds(n, LAP - 1)), port, stale);
  }
}

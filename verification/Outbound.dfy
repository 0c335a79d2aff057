/** The sending half of a channel (`Outbound` in src/channel.rs), and what every run of
    sends, proofs and timeouts conserves. */
module Outbound {
  import opened Octets
  import opened Envelope
  import Window

  /** Packet hashes are only ever compared, so they are modelled as numbers. */
  type Hash = nat

  /** A link packet: its hash and the envelope it carries. */
  datatype Packet = Packet(hash: Hash, raw: Bytes)

  datatype SentMessage = SentMessage(packet: Packet, tries: nat)

  datatype State = State(
    sent: map<Hash, SentMessage>,
    delivered: set<Hash>,
    nextSequence: U16,
    params: Window.Params)

  function Fresh(slow: bool): State {
    State(map[], {}, 0, Window.Initial(slow))
  }

  /** What `send` reads from the transport and the link while it runs. */
  datatype Outlet = Outlet(
    transportUp: bool,
    cancelled: bool,
    usable: bool,
    mdu: nat,
    encrypts: bool,
    activeOnSend: bool)

  datatype SendError = LinkNotReady | ChannelMessageTooBig

  datatype SendResult = Accepted(packet: Packet) | Refused(error: SendError)

  predicate IsReadyToSend(s: State, outlet: Outlet) {
    !outlet.cancelled && outlet.usable && |s.sent| < s.params.window
  }

  function Send(s: State, outlet: Outlet, messageType: U16, payload: Bytes, hash: Hash): (State, SendResult) {
    if !outlet.transportUp || !IsReadyToSend(s, outlet) then (s, Refused(LinkNotReady))
    else if !SizeAccepted(outlet.mdu, |payload|) || !outlet.encrypts then (s, Refused(ChannelMessageTooBig))
    else if !outlet.activeOnSend then (s, Refused(LinkNotReady))
    else
      var packet := Packet(hash, EnvelopeRaw(payload, messageType, Some(s.nextSequence)));
      (s.(sent := s.sent[hash := SentMessage(packet, 1)], nextSequence := Wrap(s.nextSequence + 1)),
       Accepted(packet))
  }

  function HandleProof(s: State, hash: Hash, rtt: real): State {
    if hash !in s.sent then s
    else s.(sent := s.sent - {hash}, delivered := s.delivered + {hash}, params := Window.Grow(s.params, rtt))
  }

  datatype TimeoutAction = Unknown | TornDown | Retried(packet: Packet)

  function HandleTimeout(s: State, hash: Hash): (State, TimeoutAction) {
    if hash !in s.sent then (s, Unknown)
    else if s.sent[hash].tries >= s.params.maxTries then (s, TornDown)
    else
      var again := s.sent[hash].(tries := s.sent[hash].tries + 1);
      (s.(sent := s.sent[hash := again], params := Window.Shrink(s.params)), Retried(again.packet))
  }

  datatype MessageStatus = NotKnown | Waiting | Sent(tries: nat) | Delivered

  function GetStatus(s: State, hash: Hash): MessageStatus {
    if hash in s.sent then
      if s.sent[hash].tries == 0 then Waiting else Sent(s.sent[hash].tries)
    else if hash in s.delivered then Delivered
    else NotKnown
  }

  /** The outbound half as the source keeps it; `params` is shared and updated in place. */
  class Outbound {
    var sentMessages: map<Hash, SentMessage>
    var delivered: set<Hash>
    var nextSequence: U16
    const params: Window.ChannelParams

    function Value(): State
      reads this, params
    {
      State(sentMessages, delivered, nextSequence, params.Value())
    }

    constructor (slow: bool)
      ensures Value() == Fresh(slow) && fresh(params)
    {
      sentMessages, delivered, nextSequence := map[], {}, 0;
      params := new Window.ChannelParams(slow);
    }

    /** A refused send changes nothing; an accepted one consumes one sequence number. */
    method SendMessage(outlet: Outlet, messageType: U16, payload: Bytes, hash: Hash) returns (result: SendResult)
      modifies this
      ensures var step := Send(old(Value()), outlet, messageType, payload, hash); Value() == step.0 && result == step.1
      ensures result.Refused? ==> Value() == old(Value())
    {
      hide EnvelopeRaw, MaxLinkPlaintext, Wrap;
      if !outlet.transportUp || outlet.cancelled || !outlet.usable || |sentMessages| >= params.window {
        return Refused(LinkNotReady);
      }
      var raw := EnvelopeRaw(payload, messageType, Some(nextSequence));
      var limit := Min(Min(outlet.mdu, MaxLinkPlaintext()), 0xFFFF + HEADER_LEN);
      if |raw| - HEADER_LEN > 0xFFFF || |raw| > limit || !outlet.encrypts {
        return Refused(ChannelMessageTooBig);
      }
      if !outlet.activeOnSend {
        return Refused(LinkNotReady);
      }
      var packet := Packet(hash, raw);
      sentMessages := sentMessages[hash := SentMessage(packet, 1)];
      nextSequence := Wrap(nextSequence + 1);
      result := Accepted(packet);
    }

    method Prove(hash: Hash, rtt: real)
      modifies this, params
      ensures Value() == HandleProof(old(Value()), hash, rtt)
    {
      if hash in sentMessages {
        sentMessages := sentMessages - {hash};
        params.AdjustParams(rtt);
        delivered := delivered + {hash};
      }
    }

    method TimeOut(hash: Hash) returns (action: TimeoutAction)
      modifies this, params
      ensures var step := HandleTimeout(old(Value()), hash); Value() == step.0 && action == step.1
    {
      if hash !in sentMessages {
        return Unknown;
      }
      var entry := sentMessages[hash];
      if entry.tries >= params.maxTries {
        return TornDown;
      }
      params.ShrinkOnTimeout();
      sentMessages := sentMessages[hash := entry.(tries := entry.tries + 1)];
      action := Retried(entry.packet);
    }
  }

  // ---- Runs -------------------------------------------------------------------------

  /** One accepted message, in the order in which `send` accepted them. */
  datatype Message = Message(hash: Hash, messageType: U16, payload: Bytes)

  /** The sender with its history: every accepted message and every transmission. */
  datatype Sender = Sender(out: State, accepted: seq<Message>, wire: seq<Packet>)

  datatype Event =
    | SendEvent(outlet: Outlet, messageType: U16, payload: Bytes, hash: Hash)
    | ProofEvent(proven: Hash, rtt: real)
    | TimeoutEvent(expired: Hash, linkUp: bool)

  function Start(slow: bool): Sender {
    Sender(Fresh(slow), [], [])
  }

  function Hashes(accepted: seq<Message>): set<Hash> {
    set i | 0 <= i < |accepted| :: accepted[i].hash
  }

  /** One step. Distinct packets have distinct hashes, so a send whose packet hash was used
      before cannot happen and is a stutter. A retry reaches the wire if the link is up. */
  ghost function Step(s: Sender, e: Event): Sender {
    match e
    case SendEvent(outlet, messageType, payload, hash) =>
      if hash in Hashes(s.accepted) then s
      else
        var (out, result) := Send(s.out, outlet, messageType, payload, hash);
        (match result
         case Accepted(packet) =>
           Sender(out, s.accepted + [Message(hash, messageType, payload)], s.wire + [packet])
         case Refused(_) => s.(out := out))
    case ProofEvent(hash, rtt) => s.(out := HandleProof(s.out, hash, rtt))
    case TimeoutEvent(hash, linkUp) =>
      var (out, action) := HandleTimeout(s.out, hash);
      s.(out := out, wire := if action.Retried? && linkUp then s.wire + [action.packet] else s.wire)
  }

  ghost function Run(s: Sender, events: seq<Event>): Sender
    decreases |events|
  {
    if events == [] then s else Step(Run(s, events[..|events| - 1]), events[|events| - 1])
  }

  /** The envelope of the `i`-th accepted message. */
  function RawOf(accepted: seq<Message>, i: nat): Bytes
    requires i < |accepted|
  {
    EnvelopeRaw(accepted[i].payload, accepted[i].messageType, Some(Wrap(i)))
  }

  /** The packet is the one made for an accepted message. */
  ghost predicate IsAcceptedPacket(accepted: seq<Message>, packet: Packet) {
    exists i :: 0 <= i < |accepted| && accepted[i].hash == packet.hash && packet.raw == RawOf(accepted, i)
  }

  ghost predicate DistinctHashes(accepted: seq<Message>) {
    forall i, j :: 0 <= i < j < |accepted| ==> accepted[i].hash != accepted[j].hash
  }

  /** How often the packet with this hash was put on the wire. */
  function Transmissions(wire: seq<Packet>, hash: Hash): nat {
    if wire == [] then 0
    else Transmissions(wire[..|wire| - 1], hash) + (if wire[|wire| - 1].hash == hash then 1 else 0)
  }

  /** Every accepted hash is outstanding or delivered, never both and never neither. */
  ghost predicate Partition(accepted: seq<Message>, outstanding: set<Hash>, delivered: set<Hash>) {
    && DistinctHashes(accepted)
    && outstanding !! delivered
    && outstanding + delivered == Hashes(accepted)
    && |outstanding| <= 48
  }

  ghost predicate Conserved(s: Sender) {
    && Partition(s.accepted, s.out.sent.Keys, s.out.delivered)
    && s.out.nextSequence == Wrap(|s.accepted|)
  }

  /** Everything on the wire or waiting for a proof is the packet of an accepted message. */
  ghost predicate Genuine(s: Sender) {
    && (forall h :: h in s.out.sent ==>
         s.out.sent[h].packet.hash == h && IsAcceptedPacket(s.accepted, s.out.sent[h].packet))
    && (forall k :: 0 <= k < |s.wire| ==> IsAcceptedPacket(s.accepted, s.wire[k]))
  }

  /** A packet is on the wire at most as often as it was tried, and at most five times. */
  ghost predicate RetryBound(s: Sender) {
    && (forall h :: h in s.out.sent ==> Transmissions(s.wire, h) <= s.out.sent[h].tries <= Window.MAX_TRIES)
    && (forall h :: Transmissions(s.wire, h) <= Window.MAX_TRIES)
    && (forall h :: h !in Hashes(s.accepted) ==> Transmissions(s.wire, h) == 0)
  }

  ghost predicate Inv(slow: bool, s: Sender) {
    Conserved(s) && Genuine(s) && RetryBound(s) && Window.Bounded(slow, s.out.params)
  }

  lemma ExtendKeepsPackets(accepted: seq<Message>, m: Message, packet: Packet)
    requires IsAcceptedPacket(accepted, packet)
    ensures IsAcceptedPacket(accepted + [m], packet)
  {
    var i :| 0 <= i < |accepted| && accepted[i].hash == packet.hash && packet.raw == RawOf(accepted, i);
    hide EnvelopeRaw, Wrap;
    assert (accepted + [m])[i] == accepted[i];
    assert RawOf(accepted + [m], i) == RawOf(accepted, i);
  }

  lemma ExtendHashes(accepted: seq<Message>, m: Message)
    ensures Hashes(accepted + [m]) == Hashes(accepted) + {m.hash}
  {
    var longer := accepted + [m];
    assert longer[|accepted|] == m;
    forall h | h in Hashes(accepted) ensures h in Hashes(longer) {
      var i :| 0 <= i < |accepted| && accepted[i].hash == h;
      assert longer[i].hash == h;
    }
  }

  lemma TransmissionsAppend(wire: seq<Packet>, packet: Packet, h: Hash)
    ensures Transmissions(wire + [packet], h) == Transmissions(wire, h) + (if packet.hash == h then 1 else 0)
  {
    assert (wire + [packet])[..|wire|] == wire;
  }

  /** What a send that was accepted adds. */
  ghost predicate Extends(s: Sender, t: Sender, m: Message, packet: Packet) {
    && m.hash !in Hashes(s.accepted)
    && t.accepted == s.accepted + [m]
    && t.wire == s.wire + [packet]
    && packet == Packet(m.hash, RawOf(t.accepted, |s.accepted|))
    && t.out.sent == s.out.sent[m.hash := SentMessage(packet, 1)]
  }

  lemma ExtendKeepsPartition(accepted: seq<Message>, m: Message, outstanding: set<Hash>, delivered: set<Hash>)
    requires Partition(accepted, outstanding, delivered) && |outstanding| < 48
    requires m.hash !in Hashes(accepted)
    ensures Partition(accepted + [m], outstanding + {m.hash}, delivered)
  {
    ExtendHashes(accepted, m);
    assert forall i :: 0 <= i < |accepted| ==> accepted[i].hash in Hashes(accepted);
  }

  lemma ExtendKeepsGenuine(s: Sender, t: Sender, m: Message, packet: Packet)
    requires Genuine(s) && Extends(s, t, m, packet)
    ensures Genuine(t)
  {
    forall p | IsAcceptedPacket(s.accepted, p) ensures IsAcceptedPacket(t.accepted, p) {
      ExtendKeepsPackets(s.accepted, m, p);
    }
    assert t.accepted[|s.accepted|].hash == packet.hash;
    assert IsAcceptedPacket(t.accepted, packet);
  }

  lemma ExtendKeepsRetryBound(s: Sender, t: Sender, m: Message, packet: Packet)
    requires RetryBound(s) && Extends(s, t, m, packet)
    ensures RetryBound(t)
  {
    ExtendHashes(s.accepted, m);
    forall h ensures Transmissions(t.wire, h) == Transmissions(s.wire, h) + (if h == m.hash then 1 else 0) {
      TransmissionsAppend(s.wire, packet, h);
    }
  }

  lemma SendKeepsInv(slow: bool, s: Sender, e: Event)
    requires Inv(slow, s) && e.SendEvent?
    ensures Inv(slow, Step(s, e))
  {
    hide EnvelopeRaw, Wrap, IsAcceptedPacket, DistinctHashes, Transmissions, Hashes;
    var t := Step(s, e);
    if e.hash !in Hashes(s.accepted) && Send(s.out, e.outlet, e.messageType, e.payload, e.hash).1.Accepted? {
      assert |s.out.sent| < 48;
      hide Window.Bounded;
      var m := Message(e.hash, e.messageType, e.payload);
      var packet := Packet(e.hash, EnvelopeRaw(e.payload, e.messageType, Some(s.out.nextSequence)));
      assert Extends(s, t, m, packet) by {
        assert t.accepted[|s.accepted|] == m;
      }
      assert t.out.sent.Keys == s.out.sent.Keys + {m.hash};
      assert t.out.nextSequence == Wrap(|t.accepted|) by {
        WrapSuccessor(|s.accepted|);
      }
      ExtendKeepsPartition(s.accepted, m, s.out.sent.Keys, s.out.delivered);
      ExtendKeepsGenuine(s, t, m, packet);
      ExtendKeepsRetryBound(s, t, m, packet);
    } else {
      assert t == s;
    }
  }

  lemma ProveKeepsPartition(accepted: seq<Message>, outstanding: set<Hash>, delivered: set<Hash>, h: Hash)
    requires Partition(accepted, outstanding, delivered) && h in outstanding
    ensures Partition(accepted, outstanding - {h}, delivered + {h})
  {
    hide Hashes, DistinctHashes;
    assert (outstanding - {h}) + (delivered + {h}) == outstanding + delivered;
  }

  lemma ProofKeepsInv(slow: bool, s: Sender, e: Event)
    requires Inv(slow, s) && e.ProofEvent?
    ensures Inv(slow, Step(s, e))
  {
    hide EnvelopeRaw, Wrap, IsAcceptedPacket, Hashes, Partition, Transmissions, Window.Bounded, Window.Grow;
    var t := Step(s, e);
    if e.proven in s.out.sent {
      ProveKeepsPartition(s.accepted, s.out.sent.Keys, s.out.delivered, e.proven);
      assert t.out.sent.Keys == s.out.sent.Keys - {e.proven};
      Window.StepStaysBounded(slow, s.out.params, Window.Proven(e.rtt));
    }
  }

  lemma RetryKeepsRetryBound(s: Sender, t: Sender, expired: Hash, packet: Packet)
    requires RetryBound(s) && expired in s.out.sent && packet.hash == expired
    requires s.out.sent[expired].tries < Window.MAX_TRIES
    requires t.accepted == s.accepted && expired in Hashes(s.accepted)
    requires t.out.sent == s.out.sent[expired := SentMessage(packet, s.out.sent[expired].tries + 1)]
    requires t.wire == s.wire || t.wire == s.wire + [packet]
    ensures RetryBound(t)
  {
    forall h ensures Transmissions(t.wire, h) <= Transmissions(s.wire, h) + (if h == expired then 1 else 0) {
      TransmissionsAppend(s.wire, packet, h);
    }
  }

  lemma RetryKeepsGenuine(s: Sender, t: Sender, expired: Hash)
    requires Genuine(s) && expired in s.out.sent
    requires t.accepted == s.accepted
    requires t.out.sent == s.out.sent[expired := SentMessage(s.out.sent[expired].packet, s.out.sent[expired].tries + 1)]
    requires t.wire == s.wire || t.wire == s.wire + [s.out.sent[expired].packet]
    ensures Genuine(t)
  {
    hide IsAcceptedPacket;
  }

  lemma TimeoutKeepsInv(slow: bool, s: Sender, e: Event)
    requires Inv(slow, s) && e.TimeoutEvent?
    ensures Inv(slow, Step(s, e))
  {
    hide IsAcceptedPacket, DistinctHashes, Hashes, Transmissions, Wrap, EnvelopeRaw, Window.Shrink;
    assert s.out.params.maxTries == Window.MAX_TRIES;
    hide Window.Bounded;
    var t := Step(s, e);
    if e.expired in s.out.sent && s.out.sent[e.expired].tries < s.out.params.maxTries {
      assert e.expired in s.out.sent.Keys + s.out.delivered;
      RetryKeepsGenuine(s, t, e.expired);
      RetryKeepsRetryBound(s, t, e.expired, s.out.sent[e.expired].packet);
      assert t.out.sent.Keys == s.out.sent.Keys;
      Window.StepStaysBounded(slow, s.out.params, Window.TimedOut);
    } else {
      assert t == s;
    }
  }

  lemma StepKeepsInv(slow: bool, s: Sender, e: Event)
    requires Inv(slow, s)
    ensures Inv(slow, Step(s, e))
  {
    match e
    case SendEvent(_, _, _, _) => SendKeepsInv(slow, s, e);
    case ProofEvent(_, _) => ProofKeepsInv(slow, s, e);
    case TimeoutEvent(_, _) => TimeoutKeepsInv(slow, s, e);
  }

  /** On every run: the outstanding and the delivered hashes partition the accepted ones, at
      most 48 are outstanding, the sequence counter is the accepted count modulo 65536, the
      wire only ever carries packets of accepted messages, and none more than five times. */
  lemma {:induction false} RunKeepsInv(slow: bool, events: seq<Event>)
    ensures Inv(slow, Run(Start(slow), events))
    decreases |events|
  {
    if events != [] {
      RunKeepsInv(slow, events[..|events| - 1]);
      StepKeepsInv(slow, Run(Start(slow), events[..|events| - 1]), events[|events| - 1]);
    }
  }

  /** A delivered message stays delivered, whatever proofs, timeouts and sends follow. */
  lemma {:induction false} DeliveredIsFinal(slow: bool, before: seq<Event>, more: seq<Event>, hash: Hash)
    requires GetStatus(Run(Start(slow), before).out, hash) == Delivered
    ensures GetStatus(Run(Start(slow), before + more).out, hash) == Delivered
    decreases |more|
  {
    if more == [] {
      assert before + more == before;
    } else {
      var shorter := more[..|more| - 1];
      assert (before + more)[..|before + more| - 1] == before + shorter;
      DeliveredIsFinal(slow, before, shorter, hash);
      RunKeepsInv(slow, before + shorter);
      StepKeepsDelivered(slow, Run(Start(slow), before + shorter), more[|more| - 1], hash);
    }
  }

  lemma StepKeepsDelivered(slow: bool, s: Sender, e: Event, hash: Hash)
    requires Inv(slow, s) && GetStatus(s.out, hash) == Delivered
    ensures GetStatus(Step(s, e).out, hash) == Delivered
  {
    hide EnvelopeRaw, Wrap, Genuine, RetryBound, Hashes, Window.Bounded, DistinctHashes;
    assert hash in s.out.sent.Keys + s.out.delivered;
  }

  // ---- The window paces the sender --------------------------------------------------------

  /** Nothing about the link stands in the way of a packet. */
  predicate LinkTakes(outlet: Outlet) {
    outlet.transportUp && !outlet.cancelled && outlet.usable && outlet.encrypts && outlet.activeOnSend
  }

  /** Exactly when `send` accepts a message: the link takes it, `mdu` admits it, and fewer messages
      are outstanding than the window allows. A full window is reported as a link not ready. */
  lemma AcceptedIffWindowOpen(s: State, outlet: Outlet, messageType: U16, payload: Bytes, hash: Hash)
    ensures var result := Send(s, outlet, messageType, payload, hash).1;
            && (result.Accepted? <==>
                  && LinkTakes(outlet) && outlet.mdu >= HEADER_LEN && |payload| <= Mdu(outlet.mdu)
                  && |s.sent| < s.params.window)
            && (LinkTakes(outlet) && |s.sent| >= s.params.window ==> result == Refused(LinkNotReady))
  {
    hide EnvelopeRaw, Wrap;
    MduIsWhatSendAccepts(outlet.mdu);
  }

  /** The sender never runs ahead of the proofs it has seen: every proof opens the window by at most
      one message. */
  ghost predicate Paced(slow: bool, s: State) {
    && s.params.window <= Window.Initial(slow).window + |s.delivered|
    && |s.sent| <= Window.Initial(slow).window + |s.delivered|
  }

  lemma StepKeepsPaced(slow: bool, s: Sender, e: Event)
    requires Inv(slow, s) && Paced(slow, s.out)
    ensures Paced(slow, Step(s, e).out)
  {
    hide EnvelopeRaw, Wrap, Genuine, RetryBound, Hashes, DistinctHashes, SizeAccepted, Window.Bounded, Send,
         HandleProof, HandleTimeout, Paced;
    match e
    case SendEvent(outlet, messageType, payload, hash) =>
      SendKeepsPaced(slow, s.out, outlet, messageType, payload, hash);
    case ProofEvent(proven, rtt) => ProofKeepsPaced(slow, s.out, proven, rtt);
    case TimeoutEvent(expired, _) => TimeoutKeepsPaced(slow, s.out, expired);
  }

  lemma SendKeepsPaced(slow: bool, s: State, outlet: Outlet, messageType: U16, payload: Bytes, hash: Hash)
    requires Paced(slow, s)
    ensures Paced(slow, Send(s, outlet, messageType, payload, hash).0)
  {
    hide EnvelopeRaw, Wrap, SizeAccepted;
    var t := Send(s, outlet, messageType, payload, hash).0;
    assert t.sent.Keys <= s.sent.Keys + {hash};
  }

  lemma ProofKeepsPaced(slow: bool, s: State, hash: Hash, rtt: real)
    requires Paced(slow, s) && s.sent.Keys !! s.delivered
    ensures Paced(slow, HandleProof(s, hash, rtt))
  {
    hide Window.Grow;
    if hash in s.sent {
      assert HandleProof(s, hash, rtt).sent.Keys == s.sent.Keys - {hash};
      Window.GrowsByOne(s.params, rtt);
    }
  }

  lemma TimeoutKeepsPaced(slow: bool, s: State, hash: Hash)
    requires Paced(slow, s)
    ensures Paced(slow, HandleTimeout(s, hash).0)
  {
    if hash in s.sent {
      assert HandleTimeout(s, hash).0.sent.Keys == s.sent.Keys;
    }
  }

  /** On every run no more is accepted than the initial window and two messages for each message
      proven so far. */
  lemma {:induction false} EveryRunIsPaced(slow: bool, events: seq<Event>)
    ensures var s := Run(Start(slow), events);
            Paced(slow, s.out) && |s.accepted| <= Window.Initial(slow).window + 2 * |s.out.delivered|
    decreases |events|
  {
    hide Inv, Step;
    if events != [] {
      EveryRunIsPaced(slow, events[..|events| - 1]);
      RunKeepsInv(slow, events[..|events| - 1]);
      StepKeepsPaced(slow, Run(Start(slow), events[..|events| - 1]), events[|events| - 1]);
    }
    RunKeepsInv(slow, events);
    AcceptedIsSentOrDelivered(slow, Run(Start(slow), events));
  }

  /** In any state, a send that is accepted leaves no more outstanding than the window in force. */
  lemma AcceptingFitsWindow(s: Sender, e: Event)
    requires |Step(s, e).accepted| > |s.accepted|
    ensures Step(s, e).out.params == s.out.params && |Step(s, e).out.sent| <= s.out.params.window
  {
    hide EnvelopeRaw, Wrap, SizeAccepted;
    assert Step(s, e).out.sent.Keys == s.out.sent.Keys + {e.hash};
  }

  lemma AcceptedIsSentOrDelivered(slow: bool, s: Sender)
    requires Inv(slow, s)
    ensures |s.accepted| == |s.out.sent| + |s.out.delivered|
  {
    hide Genuine, RetryBound, Window.Bounded, Wrap;
    HashesCount(s.accepted);
    assert |s.out.sent.Keys + s.out.delivered| == |s.out.sent.Keys| + |s.out.delivered|;
  }

  lemma {:induction false} HashesCount(accepted: seq<Message>)
    requires DistinctHashes(accepted)
    ensures |Hashes(accepted)| == |accepted|
  {
    if accepted != [] {
      var front, last := accepted[..|accepted| - 1], accepted[|accepted| - 1];
      HashesCount(front);
      ExtendHashes(front, last);
      assert front + [last] == accepted;
      assert last.hash !in Hashes(front);
    }
  }

  // ---- Giving up ------------------------------------------------------------------------------

  /** While the link is up at every timeout, a packet is on the wire as often as it was tried. */
  ghost predicate TriesAreSends(s: Sender) {
    forall h :: h in s.out.sent ==> Transmissions(s.wire, h) == s.out.sent[h].tries > 0
  }

  lemma StepKeepsTries(slow: bool, s: Sender, e: Event)
    requires Inv(slow, s) && TriesAreSends(s) && (e.TimeoutEvent? ==> e.linkUp)
    ensures TriesAreSends(Step(s, e))
  {
    hide EnvelopeRaw, Wrap, IsAcceptedPacket, Partition, SizeAccepted, Window.Bounded, Window.Shrink, Window.Grow,
         Transmissions, Hashes;
    var t := Step(s, e);
    if |t.wire| > |s.wire| {
      forall h ensures Transmissions(t.wire, h) ==
                       Transmissions(s.wire, h) + (if t.wire[|s.wire|].hash == h then 1 else 0) {
        TransmissionsAppend(s.wire, t.wire[|s.wire|], h);
        assert s.wire + [t.wire[|s.wire|]] == t.wire;
      }
    }
  }

  lemma {:induction false} RunKeepsTries(slow: bool, events: seq<Event>)
    requires forall e :: e in events && e.TimeoutEvent? ==> e.linkUp
    ensures TriesAreSends(Run(Start(slow), events))
    decreases |events|
  {
    hide Step, Inv, TriesAreSends;
    if events == [] {
      assert TriesAreSends(Start(slow)) by { NothingTried(slow); }
    } else {
      RunKeepsTries(slow, events[..|events| - 1]);
      RunKeepsInv(slow, events[..|events| - 1]);
      StepKeepsTries(slow, Run(Start(slow), events[..|events| - 1]), events[|events| - 1]);
    }
  }

  lemma NothingTried(slow: bool)
    ensures TriesAreSends(Start(slow))
  {
  }

  /** After any such run, exactly what is reported of a message: unknown if it was never accepted,
      delivered once it was proven, and until then how often it was sent. */
  lemma StatusIs(slow: bool, events: seq<Event>, hash: Hash)
    requires forall e :: e in events && e.TimeoutEvent? ==> e.linkUp
    ensures var s := Run(Start(slow), events);
            GetStatus(s.out, hash) ==
            if hash !in Hashes(s.accepted) then NotKnown
            else if hash in s.out.delivered then Delivered
            else Sent(Transmissions(s.wire, hash))
  {
    hide Run, Transmissions, Genuine, Hashes, DistinctHashes, RetryBound, Window.Bounded;
    RunKeepsInv(slow, events);
    RunKeepsTries(slow, events);
    var s := Run(Start(slow), events);
    assert hash in s.out.sent.Keys + s.out.delivered <==> hash in Hashes(s.accepted);
  }

  /** After any run in which the link was up at every timeout, the next timeout of a packet tears the
      link down exactly if the packet was sent five times and is still unproven; before that it is
      sent once more. A timeout for anything else does nothing. */
  lemma GivesUpAfterFive(slow: bool, events: seq<Event>, hash: Hash)
    requires forall e :: e in events && e.TimeoutEvent? ==> e.linkUp
    ensures var s := Run(Start(slow), events);
            var (out, action) := HandleTimeout(s.out, hash);
            && (action.TornDown? <==> hash in s.out.sent && Transmissions(s.wire, hash) == 5)
            && (action.Retried? <==> hash in s.out.sent && Transmissions(s.wire, hash) < 5)
            && (action.Retried? ==> action.packet == s.out.sent[hash].packet)
            && (action.Unknown? <==> hash in s.out.delivered || hash !in Hashes(s.accepted))
            && (!action.Retried? ==> out == s.out)
  {
    hide Run, Transmissions, Genuine, Hashes, DistinctHashes;
    RunKeepsInv(slow, events);
    RunKeepsTries(slow, events);
    var s := Run(Start(slow), events);
    assert hash in s.out.sent.Keys + s.out.delivered <==> hash in Hashes(s.accepted);
  }

  // ---- The window follows the weather -----------------------------------------------------------

  /** What one step means for the window: a proof of an outstanding packet, or a timeout after which it
      is sent again. */
  ghost function WeatherOf(s: Sender, e: Event): (w: seq<Window.Event>)
    ensures |w| <= 1
  {
    if e.ProofEvent? && e.proven in s.out.sent then [Window.Proven(e.rtt)]
    else if e.TimeoutEvent? && e.expired in s.out.sent && s.out.sent[e.expired].tries < 5 then [Window.TimedOut]
    else []
  }

  ghost function Weather(slow: bool, events: seq<Event>): seq<Window.Event>
    decreases |events|
  {
    if events == [] then []
    else
      var before := events[..|events| - 1];
      Weather(slow, before) + WeatherOf(Run(Start(slow), before), events[|events| - 1])
  }

  /** On every run the window is what the proofs and timeouts that mattered make of it, and sends,
      unknown hashes and a torn-down link leave it alone. */
  lemma {:induction false} WindowFollowsWeather(slow: bool, events: seq<Event>)
    ensures Run(Start(slow), events).out.params == Window.Run(Window.Initial(slow), Weather(slow, events))
    decreases |events|
  {
    hide Step, WeatherOf, Window.Run;
    if events == [] {
      NoWeather(slow);
    } else {
      var before := events[..|events| - 1];
      WindowFollowsWeather(slow, before);
      MaxTriesIsFive(slow, before);
      StepMovesWindow(Run(Start(slow), before), events[|events| - 1]);
      var now := WeatherOf(Run(Start(slow), before), events[|events| - 1]);
      MoreWeather(Window.Initial(slow), Weather(slow, before), now);
    }
  }

  lemma NoWeather(slow: bool)
    ensures Window.Run(Window.Initial(slow), []) == Window.Initial(slow)
  {
  }

  lemma StepMovesWindow(s: Sender, e: Event)
    requires s.out.params.maxTries == 5
    ensures Step(s, e).out.params == Window.Run(s.out.params, WeatherOf(s, e))
  {
    hide Window.Grow, Window.Shrink, EnvelopeRaw, Wrap, SizeAccepted, Hashes;
    var w := WeatherOf(s, e);
    assert w != [] ==> w[..|w| - 1] == [];
    assert Window.Run(s.out.params, []) == s.out.params;
  }

  lemma MoreWeather(p: Window.Params, so: seq<Window.Event>, now: seq<Window.Event>)
    requires |now| <= 1
    ensures Window.Run(p, so + now) == Window.Run(Window.Run(p, so), now)
  {
    hide Window.Step;
    if now == [] {
      assert so + now == so;
    } else {
      assert (so + now)[..|so|] == so && now[..0] == [];
      assert Window.Run(Window.Run(p, so), []) == Window.Run(p, so);
    }
  }

  lemma MaxTriesIsFive(slow: bool, events: seq<Event>)
    ensures Run(Start(slow), events).out.params.maxTries == 5
  {
    hide Run;
    RunKeepsInv(slow, events);
  }
}

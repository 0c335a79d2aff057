/** The receiving half of a channel: the u16 duplicate filter, the reorder buffer and the
    drain loop (`Inbound` in src/channel.rs). */
module Inbound {
  import opened Octets
  import opened Envelope

  const WINDOW_MAX: nat := 48

  /** The number of distinct sequence numbers. */
  const LAP: nat := 65536

  /** One decoded envelope: either for the channel's primary type or for a registered type.
      Handing one to its subscribers is modelled as appending it to a log. */
  datatype Held<M> = Primary(message: M) | Registered(messageType: U16, payload: Bytes)

  type Unpacker<!M> = (Bytes, U16) -> Option<M>

  datatype State<M> = State(onHold: map<U16, Held<M>>, sequence: U16)

  function Empty<M>(): State<M> {
    State(map[], 0)
  }

  /** The duplicate filter: `sequence` is taken for an old packet. */
  predicate OutOfWindow(sequence: U16, next: U16) {
    sequence < next &&
    var overflow := Min(sequence + WINDOW_MAX, 65535);
    overflow >= next || sequence > overflow
  }

  function Decode<M>(unpack: Unpacker<M>, registry: set<U16>, messageType: U16, payload: Bytes): Option<Held<M>> {
    if messageType in registry then Some(Registered(messageType, payload))
    else match unpack(payload, messageType)
         case Some(message) => Some(Primary(message))
         case None => None
  }

  function NextSequence(sequence: U16): U16 {
    Wrap(sequence + 1)
  }

  /** Everything the drain loop hands out, and the state it stops in. */
  function Drain<M>(s: State<M>): (State<M>, seq<Held<M>>)
    decreases |s.onHold|
  {
    if s.sequence !in s.onHold then (s, [])
    else
      var rest := Drain(State(s.onHold - {s.sequence}, NextSequence(s.sequence)));
      (rest.0, [s.onHold[s.sequence]] + rest.1)
  }

  function Receive<M>(s: State<M>, unpack: Unpacker<M>, registry: set<U16>, raw: Bytes): (State<M>, seq<Held<M>>) {
    match DeenvelopeRaw(raw)
    case None => (s, [])
    case Some(header) =>
      if OutOfWindow(header.sequence, s.sequence) then (s, [])
      else match Decode(unpack, registry, header.messageType, raw[HEADER_LEN..])
           case None => (s, [])
           case Some(held) => Drain(s.(onHold := s.onHold[header.sequence := held]))
  }

  class Inbound<M> {
    var onHold: map<U16, Held<M>>
    var sequence: U16
    var delivered: seq<Held<M>>
    const unpack: Unpacker<M>

    function Value(): State<M>
      reads this
    {
      State(onHold, sequence)
    }

    constructor (unpack: Unpacker<M>)
      ensures Value() == Empty() && delivered == [] && this.unpack == unpack
    {
      this.unpack := unpack;
      onHold, sequence, delivered := map[], 0, [];
    }

    method ReceiveRaw(registry: set<U16>, raw: Bytes)
      modifies this
      ensures var step := Receive(old(Value()), unpack, registry, raw);
              Value() == step.0 && delivered == old(delivered) + step.1
    {
      hide OutOfWindow, Decode, NextSequence;
      assert delivered + [] == delivered;
      var header := DeenvelopeRaw(raw);
      if header.None? || OutOfWindow(header.value.sequence, sequence) {
        return;
      }
      var held := Decode(unpack, registry, header.value.messageType, raw[HEADER_LEN..]);
      if held.None? {
        return;
      }
      onHold := onHold[header.value.sequence := held.value];
      ghost var all := Drain(Value());
      ghost var start := delivered;
      while sequence in onHold
        invariant var rest := Drain(Value());
                  rest.0 == all.0 && delivered + rest.1 == start + all.1
        decreases |onHold|
      {
        var next := onHold[sequence];
        Regrouped(delivered, [next], Drain(State(onHold - {sequence}, NextSequence(sequence))).1);
        onHold := onHold - {sequence};
        delivered := delivered + [next];
        sequence := NextSequence(sequence);
      }
    }
  }
}

/** One buffer stream end to end: a writer, the channel with its lossy network, and a reader,
    beside any other traffic on the same channel (src/buffer_stream.rs over src/channel.rs). */
module StreamRun {
  import opened Octets
  import opened Envelope
  import opened Inbound
  import opened Stream
  import Outbound
  import Delivery

  /** The writing side. `written` is what the application has written, `taken` how much of it
      has been read into chunks, `sent` how much of it accepted frames stand for. */
  datatype Writer = Writer(written: Bytes, sent: nat, taken: nat, frameMdu: nat, open: bool)

  /** The reading side: its place in the channel's log, the rest of the frame it is handing
      over, whether that frame ends the stream, and everything the application can read. */
  datatype Reader = Reader(pos: nat, buffer: Bytes, ending: bool, closed: bool, out: Bytes)

  /** `frameOf` is the reader's subscription: what it makes of one delivered channel message. A
      `dedicated` reader takes the channel's primary type, which ignores message types. */
  datatype Config<!M> = Config(
    z: Compressor,
    port: Delivery.Port<M>,
    frameOf: Held<M> -> Option<Frame>,
    streamId: U16,
    dedicated: bool)

  datatype System<M> = System(channel: Delivery.Channel<M>, writer: Writer, reader: Reader)

  datatype Event =
    | Elsewhere(event: Delivery.Event)
    | UserWrite(bytes: Bytes)
    | TakeChunk(size: nat)
    | SendFrame(outlet: Outbound.Outlet, hash: Outbound.Hash)
    | SendEof(eofOutlet: Outbound.Outlet, eofHash: Outbound.Hash)
    | GiveUp
    | Read

  function Start<M>(cfg: Config<M>, slow: bool, frameMdu: nat): System<M> {
    System(Delivery.Open(slow, cfg.port), Writer([], 0, 0, frameMdu, true), Reader(0, [], false, false, []))
  }

  /** The frame in a channel message, if it is a stream frame. */
  function FrameIn(z: Compressor, m: Outbound.Message): Option<Frame> {
    if m.messageType == SMT_STREAM_DATA then UnpackBytes(z, m.payload) else None
  }

  predicate IsFor(f: Option<Frame>, streamId: U16) {
    f.Some? && f.value.streamId == streamId
  }

  /** The frame a reader may take a channel message for. */
  function FrameSeen<M>(cfg: Config<M>, m: Outbound.Message): Option<Frame> {
    if cfg.dedicated then UnpackBytes(cfg.z, m.payload) else FrameIn(cfg.z, m)
  }

  /** The frame tells the reader of the stream something: bytes, or its end. */
  predicate Speaks(f: Option<Frame>, streamId: U16) {
    IsFor(f, streamId) && (f.value.data != [] || f.value.eof)
  }

  /** There is one writer per stream id: nobody else sends what speaks to our reader. */
  predicate NotOurs<M>(cfg: Config<M>, e: Delivery.Event) {
    e.Outgoing? && e.event.SendEvent? ==>
      !Speaks(FrameSeen(cfg, Outbound.Message(0, e.event.messageType, e.event.payload)), cfg.streamId)
  }

  predicate OneWriter<M>(cfg: Config<M>, e: Event) {
    e.Elsewhere? ==> NotOurs(cfg, e.event)
  }

  ghost function ChannelStep<M>(cfg: Config<M>, s: System<M>, e: Delivery.Event): System<M> {
    s.(channel := Delivery.Step(s.channel, cfg.port, e))
  }

  /** One attempt to send a frame, with the writer's state for when the channel accepts it. */
  ghost function Offer<M>(cfg: Config<M>, s: System<M>, outlet: Outbound.Outlet, hash: Outbound.Hash, f: Frame,
                          then_: Writer): System<M>
  {
    var t := ChannelStep(cfg, s, Delivery.Outgoing(Outbound.SendEvent(outlet, SMT_STREAM_DATA, PackBytes(f), hash)));
    if |t.channel.sender.accepted| > |s.channel.sender.accepted| then t.(writer := then_) else t
  }

  function Advance<M>(cfg: Config<M>, r: Reader, log: seq<Held<M>>): Reader {
    if r.closed then r
    else if r.buffer != [] then
      var take := Min(|r.buffer|, SLICE);
      var rest := r.buffer[take..];
      r.(out := r.out + r.buffer[..take], buffer := rest, closed := r.ending && rest == [])
    else if r.pos < |log| then
      var f := cfg.frameOf(log[r.pos]);
      if IsFor(f, cfg.streamId)
      then Reader(r.pos + 1, f.value.data, f.value.eof, f.value.eof && f.value.data == [], r.out)
      else r.(pos := r.pos + 1)
    else r
  }

  ghost function Step<M>(cfg: Config<M>, s: System<M>, e: Event): System<M> {
    var w := s.writer;
    match e
    case Elsewhere(event) => ChannelStep(cfg, s, event)
    case UserWrite(bytes) => if w.open then s.(writer := w.(written := w.written + bytes)) else s
    case TakeChunk(size) =>
      if w.open && w.sent == w.taken && 0 < size <= MAX_CHUNK_LEN && w.taken + size <= |w.written|
      then s.(writer := w.(taken := w.taken + size)) else s
    case SendFrame(outlet, hash) =>
      if w.open && w.sent < w.taken <= |w.written| then
        var cut := CutFrame(cfg.z, w.written[w.sent..w.taken], w.frameMdu);
        Offer(cfg, s, outlet, hash, DataFrame(cfg.streamId, cut), w.(sent := w.sent + cut.processed))
      else s
    case SendEof(outlet, hash) =>
      if w.open && w.sent == w.taken == |w.written| then
        var closed := w.(open := false);
        Offer(cfg, s.(writer := closed), outlet, hash, Frame(cfg.streamId, [], true, false), closed)
      else s
    case GiveUp => s.(writer := w.(open := false))
    case Read => s.(reader := Advance(cfg, s.reader, s.channel.log))
  }

  ghost function Run<M>(cfg: Config<M>, s: System<M>, events: seq<Event>): System<M>
    decreases |events|
  {
    if events == [] then s else Step(cfg, Run(cfg, s, events[..|events| - 1]), events[|events| - 1])
  }

  // ---- The stream inside the accepted messages -------------------------------------------

  /** The stream's bytes in a sequence of accepted channel messages. */
  function StreamBytes(z: Compressor, streamId: U16, accepted: seq<Outbound.Message>): Bytes {
    if accepted == [] then []
    else
      var f := FrameIn(z, accepted[|accepted| - 1]);
      StreamBytes(z, streamId, accepted[..|accepted| - 1]) + (if IsFor(f, streamId) then f.value.data else [])
  }

  predicate IsEof(z: Compressor, streamId: U16, m: Outbound.Message) {
    var f := FrameIn(z, m);
    IsFor(f, streamId) && f.value.eof
  }

  lemma StreamBytesAppend(z: Compressor, streamId: U16, accepted: seq<Outbound.Message>, m: Outbound.Message)
    ensures var f := FrameIn(z, m);
            StreamBytes(z, streamId, accepted + [m])
            == StreamBytes(z, streamId, accepted) + (if IsFor(f, streamId) then f.value.data else [])
  {
    assert (accepted + [m])[..|accepted|] == accepted;
  }

  lemma {:induction false} StreamBytesMonotone(z: Compressor, streamId: U16, accepted: seq<Outbound.Message>, k: nat)
    requires k <= |accepted|
    ensures IsPrefix(StreamBytes(z, streamId, accepted[..k]), StreamBytes(z, streamId, accepted))
    decreases |accepted|
  {
    hide FrameIn;
    if k == |accepted| {
      assert accepted[..k] == accepted;
    } else {
      var shorter := accepted[..|accepted| - 1];
      StreamBytesMonotone(z, streamId, shorter, k);
      assert shorter[..k] == accepted[..k];
    }
  }

  /** Accepted frames are exactly what the writer counts as sent, and its end mark comes only
      after everything it was given. */
  ghost predicate Framed<M>(cfg: Config<M>, accepted: seq<Outbound.Message>, w: Writer) {
    && w.sent <= w.taken <= |w.written| && w.frameMdu > 0
    && StreamBytes(cfg.z, cfg.streamId, accepted) == w.written[..w.sent]
    && (forall k :: 0 <= k < |accepted| && IsEof(cfg.z, cfg.streamId, accepted[k]) ==>
          !w.open && w.sent == |w.written| && StreamBytes(cfg.z, cfg.streamId, accepted[..k]) == w.written)
    && (forall k :: 0 <= k < |accepted| ==>
          accepted[k].messageType == SMT_STREAM_DATA || !Speaks(FrameSeen(cfg, accepted[k]), cfg.streamId))
  }

  /** The reader has read exactly the frames before its place in the log. */
  ghost predicate Reads<M>(cfg: Config<M>, accepted: seq<Outbound.Message>, log: seq<Held<M>>, r: Reader) {
    && r.pos <= |log| <= |accepted|
    && r.out + r.buffer == StreamBytes(cfg.z, cfg.streamId, accepted[..r.pos])
    && (r.ending ==> r.pos > 0 && IsEof(cfg.z, cfg.streamId, accepted[r.pos - 1]))
    && (r.closed <==> r.ending && r.buffer == [])
  }

  /** The subscription sees the frames the sender packed, and nothing in other messages but what
      they may be taken for. */
  ghost predicate Sees<M(!new)>(cfg: Config<M>) {
    forall held, m :: Delivery.Carries(cfg.port, held, m) ==>
      if m.messageType == SMT_STREAM_DATA then cfg.frameOf(held) == FrameIn(cfg.z, m)
      else cfg.frameOf(held) == FrameSeen(cfg, m) || cfg.frameOf(held).None?
  }

  ghost predicate Sound<M(!new)>(cfg: Config<M>) {
    && Lossless(cfg.z) && cfg.streamId <= STREAM_ID_MAX
    && cfg.port.always !! cfg.port.never
    && Sees(cfg)
  }

  // ---- Invariants of one step ------------------------------------------------------------

  lemma {:induction false} FramedKeepsOther<M>(cfg: Config<M>, accepted: seq<Outbound.Message>, w: Writer,
                                               m: Outbound.Message)
    requires Framed(cfg, accepted, w)
    requires !Speaks(FrameSeen(cfg, m), cfg.streamId)
    ensures Framed(cfg, accepted + [m], w)
  {
    hide FrameIn, StreamBytes;
    StreamBytesAppend(cfg.z, cfg.streamId, accepted, m);
    SilentFrame(cfg, m);
    var more := accepted + [m];
    assert forall k :: 0 <= k < |accepted| ==> more[k] == accepted[k] && more[..k] == accepted[..k];
  }

  /** What does not speak to the reader adds nothing to the stream. */
  lemma SilentFrame<M>(cfg: Config<M>, m: Outbound.Message)
    requires !Speaks(FrameSeen(cfg, m), cfg.streamId)
    ensures !Speaks(FrameIn(cfg.z, m), cfg.streamId)
  {
  }

  lemma FramedKeepsData<M>(cfg: Config<M>, accepted: seq<Outbound.Message>, w: Writer, m: Outbound.Message)
    requires Lossless(cfg.z) && cfg.streamId <= STREAM_ID_MAX
    requires Framed(cfg, accepted, w) && w.open && w.sent < w.taken
    requires m.messageType == SMT_STREAM_DATA
    requires m.payload == PackBytes(DataFrame(cfg.streamId, CutFrame(cfg.z, w.written[w.sent..w.taken], w.frameMdu)))
    ensures var cut := CutFrame(cfg.z, w.written[w.sent..w.taken], w.frameMdu);
            Framed(cfg, accepted + [m], w.(sent := w.sent + cut.processed))
  {
    hide StreamBytes, CutFrame, PackBytes, UnpackBytes, Lossless;
    var data := w.written[w.sent..w.taken];
    var cut := CutFrame(cfg.z, data, w.frameMdu);
    FrameCarriesPrefix(cfg.z, cfg.streamId, data, w.frameMdu);
    assert FrameIn(cfg.z, m) == Some(Frame(cfg.streamId, data[..cut.processed], false, cut.compressed));
    StreamBytesAppend(cfg.z, cfg.streamId, accepted, m);
    assert w.written[..w.sent] + data[..cut.processed] == w.written[..w.sent + cut.processed];
    var more := accepted + [m];
    assert forall k :: 0 <= k < |accepted| ==> more[k] == accepted[k];
    assert !IsEof(cfg.z, cfg.streamId, more[|accepted|]);
  }

  lemma FramedKeepsEof<M>(cfg: Config<M>, accepted: seq<Outbound.Message>, w: Writer, m: Outbound.Message)
    requires Lossless(cfg.z) && cfg.streamId <= STREAM_ID_MAX
    requires Framed(cfg, accepted, w) && !w.open && w.sent == |w.written|
    requires m.messageType == SMT_STREAM_DATA && m.payload == PackBytes(Frame(cfg.streamId, [], true, false))
    ensures Framed(cfg, accepted + [m], w)
  {
    hide StreamBytes, PackBytes, UnpackBytes, Lossless;
    FrameRoundTrip(cfg.z, Frame(cfg.streamId, [], true, false), []);
    StreamBytesAppend(cfg.z, cfg.streamId, accepted, m);
    var more := accepted + [m];
    assert w.written[..w.sent] == w.written;
    assert forall k :: 0 <= k < |accepted| ==> more[k] == accepted[k] && more[..k] == accepted[..k];
    assert more[..|accepted|] == accepted;
  }

  /** What a send step does to the accepted messages. */
  lemma SendAppends<M>(port: Delivery.Port<M>, c: Delivery.Channel<M>, e: Outbound.Event)
    ensures var d := Delivery.Step(c, port, Delivery.Outgoing(e));
            && d.log == c.log
            && (d.sender.accepted == c.sender.accepted ||
                (e.SendEvent?
                 && d.sender.accepted == c.sender.accepted + [Outbound.Message(e.hash, e.messageType, e.payload)]))
  {
    hide Outbound.Send, Outbound.HandleProof, Outbound.HandleTimeout;
  }

  lemma AdvanceKeepsReads<M(!new)>(cfg: Config<M>, accepted: seq<Outbound.Message>, w: Writer, log: seq<Held<M>>,
                                   r: Reader)
    requires Sees(cfg) && Framed(cfg, accepted, w) && Reads(cfg, accepted, log, r)
    requires forall j :: 0 <= j < |log| ==> Delivery.Carries(cfg.port, log[j], accepted[j])
    ensures Reads(cfg, accepted, log, Advance(cfg, r, log))
  {
    hide UnpackBytes, StreamBytes, Delivery.Carries;
    if !r.closed && r.buffer == [] && r.pos < |log| {
      var m := accepted[r.pos];
      assert Delivery.Carries(cfg.port, log[r.pos], m);
      assert m.messageType != SMT_STREAM_DATA ==> !Speaks(cfg.frameOf(log[r.pos]), cfg.streamId);
      StreamBytesAppend(cfg.z, cfg.streamId, accepted[..r.pos], m);
      assert accepted[..r.pos] + [m] == accepted[..r.pos + 1];
    } else if !r.closed && r.buffer != [] {
      var take := Min(|r.buffer|, SLICE);
      assert r.out + r.buffer[..take] + r.buffer[take..] == r.out + r.buffer;
    }
  }

  // ---- Whole runs -------------------------------------------------------------------------

  ghost predicate Inv<M(!new)>(cfg: Config<M>, slow: bool, s: System<M>) {
    && Delivery.FirstLapInv(cfg.port, slow, s.channel)
    && Framed(cfg, s.channel.sender.accepted, s.writer)
    && (|s.channel.sender.accepted| < LAP ==> Reads(cfg, s.channel.sender.accepted, s.channel.log, s.reader))
  }

  lemma LogIsInOrder<M(!new)>(port: Delivery.Port<M>, slow: bool, c: Delivery.Channel<M>)
    requires Delivery.FirstLapInv(port, slow, c) && |c.sender.accepted| < LAP
    ensures |c.log| <= |c.sender.accepted|
    ensures forall j :: 0 <= j < |c.log| ==> Delivery.Carries(port, c.log[j], c.sender.accepted[j])
  {
    hide Delivery.Carries, Outbound.Inv, Delivery.HoldsFirstLap;
  }

  lemma ReadsExtends<M>(cfg: Config<M>, accepted: seq<Outbound.Message>, more: seq<Outbound.Message>,
                        log: seq<Held<M>>, longer: seq<Held<M>>, r: Reader)
    requires Reads(cfg, accepted, log, r)
    requires |accepted| <= |more| && more[..|accepted|] == accepted && |log| <= |longer| <= |more|
    ensures Reads(cfg, more, longer, r)
  {
    hide StreamBytes, FrameIn;
    assert more[..r.pos] == accepted[..r.pos];
  }

  lemma ChannelStepExtends<M>(port: Delivery.Port<M>, c: Delivery.Channel<M>, e: Delivery.Event)
    ensures var d := Delivery.Step(c, port, e);
            && |c.log| <= |d.log| && d.log[..|c.log|] == c.log
            && |c.sender.accepted| <= |d.sender.accepted|
            && d.sender.accepted[..|c.sender.accepted|] == c.sender.accepted
            && (!e.Outgoing? ==> d.sender == c.sender)
  {
    hide Outbound.Step, Receive, Decode;
    if e.Outgoing? {
      Delivery.SenderStepExtends(c.sender, e.event);
    }
  }

  /** A channel step keeps the invariant for any writer state that accounts for what it added. */
  lemma ChannelStepKeepsInv<M(!new)>(cfg: Config<M>, slow: bool, s: System<M>, e: Delivery.Event, w: Writer)
    requires Inv(cfg, slow, s)
    requires Framed(cfg, Delivery.Step(s.channel, cfg.port, e).sender.accepted, w)
    ensures Inv(cfg, slow, ChannelStep(cfg, s, e).(writer := w))
  {
    hide Delivery.FirstLapInv, Framed, Reads, Delivery.Step;
    Delivery.FirstLapStep(cfg.port, slow, s.channel, e);
    ChannelStepExtends(cfg.port, s.channel, e);
    var d := Delivery.Step(s.channel, cfg.port, e);
    if |d.sender.accepted| < LAP {
      LogIsInOrder(cfg.port, slow, d);
      ReadsExtends(cfg, s.channel.sender.accepted, d.sender.accepted, s.channel.log, d.log, s.reader);
    }
  }

  lemma ElsewhereKeepsInv<M(!new)>(cfg: Config<M>, slow: bool, s: System<M>, e: Delivery.Event)
    requires Inv(cfg, slow, s) && NotOurs(cfg, e)
    ensures Inv(cfg, slow, ChannelStep(cfg, s, e))
  {
    hide Delivery.FirstLapInv, Framed, Reads, Delivery.Step, UnpackBytes;
    var accepted := s.channel.sender.accepted;
    var more := Delivery.Step(s.channel, cfg.port, e).sender.accepted;
    ChannelStepExtends(cfg.port, s.channel, e);
    if e.Outgoing? {
      SendAppends(cfg.port, s.channel, e.event);
      if more != accepted {
        FramedKeepsOther(cfg, accepted, s.writer, more[|accepted|]);
      }
    }
    ChannelStepKeepsInv(cfg, slow, s, e, s.writer);
  }

  lemma OfferKeepsInv<M(!new)>(cfg: Config<M>, slow: bool, s: System<M>, outlet: Outbound.Outlet, hash: Outbound.Hash,
                               f: Frame, w: Writer)
    requires Inv(cfg, slow, s)
    requires Framed(cfg, s.channel.sender.accepted + [Outbound.Message(hash, SMT_STREAM_DATA, PackBytes(f))], w)
    ensures Inv(cfg, slow, Offer(cfg, s, outlet, hash, f, w))
  {
    hide Delivery.FirstLapInv, Framed, Reads, Delivery.Step, PackBytes;
    var e := Outbound.SendEvent(outlet, SMT_STREAM_DATA, PackBytes(f), hash);
    SendAppends(cfg.port, s.channel, e);
    var more := Delivery.Step(s.channel, cfg.port, Delivery.Outgoing(e)).sender.accepted;
    ChannelStepKeepsInv(cfg, slow, s, Delivery.Outgoing(e), if more == s.channel.sender.accepted then s.writer else w);
  }

  lemma FramedGrows<M>(cfg: Config<M>, accepted: seq<Outbound.Message>, w: Writer, v: Writer)
    requires Framed(cfg, accepted, w)
    requires v == w.(written := v.written, taken := v.taken, open := v.open)
    requires w.sent <= v.taken <= |v.written| && IsPrefix(w.written, v.written)
    requires w.open || (!v.open && v.written == w.written)
    ensures Framed(cfg, accepted, v)
  {
    hide StreamBytes, FrameIn;
    assert v.written[..v.sent] == w.written[..w.sent];
  }

  lemma StepKeepsInv<M(!new)>(cfg: Config<M>, slow: bool, s: System<M>, e: Event)
    requires Sound(cfg) && Inv(cfg, slow, s) && OneWriter(cfg, e)
    ensures Inv(cfg, slow, Step(cfg, s, e))
  {
    hide Delivery.FirstLapInv, Reads, StreamBytes, FrameIn, Delivery.Step, CutFrame, Offer, ChannelStep, PackBytes;
    var accepted, w := s.channel.sender.accepted, s.writer;
    match e
    case Elsewhere(event) => ElsewhereKeepsInv(cfg, slow, s, event);
    case UserWrite(bytes) =>
      if w.open {
        FramedGrows(cfg, accepted, w, w.(written := w.written + bytes));
      }
    case TakeChunk(size) =>
      if w.open && w.taken + size <= |w.written| {
        FramedGrows(cfg, accepted, w, w.(taken := w.taken + size));
      }
    case SendFrame(outlet, hash) =>
      if w.open && w.sent < w.taken {
        var cut := CutFrame(cfg.z, w.written[w.sent..w.taken], w.frameMdu);
        var f := DataFrame(cfg.streamId, cut);
        FramedKeepsData(cfg, accepted, w, Outbound.Message(hash, SMT_STREAM_DATA, PackBytes(f)));
        OfferKeepsInv(cfg, slow, s, outlet, hash, f, w.(sent := w.sent + cut.processed));
      }
    case SendEof(outlet, hash) =>
      if w.open && w.sent == w.taken == |w.written| {
        var closed := w.(open := false);
        var f := Frame(cfg.streamId, [], true, false);
        FramedGrows(cfg, accepted, w, closed);
        FramedKeepsEof(cfg, accepted, closed, Outbound.Message(hash, SMT_STREAM_DATA, PackBytes(f)));
        OfferKeepsInv(cfg, slow, s.(writer := closed), outlet, hash, f, closed);
      }
    case GiveUp => FramedGrows(cfg, accepted, w, w.(open := false));
    case Read =>
      if |accepted| < LAP {
        LogIsInOrder(cfg.port, slow, s.channel);
        AdvanceKeepsReads(cfg, accepted, w, s.channel.log, s.reader);
      }
  }

  lemma {:induction false} RunKeepsInv<M(!new)>(cfg: Config<M>, slow: bool, frameMdu: nat, events: seq<Event>)
    requires Sound(cfg) && frameMdu > 0 && forall e :: e in events ==> OneWriter(cfg, e)
    ensures Inv(cfg, slow, Run(cfg, Start(cfg, slow, frameMdu), events))
    decreases |events|
  {
    hide Delivery.FirstLapInv, Step, Sound;
    if events == [] {
      InitialChannel(cfg, slow);
    } else {
      RunKeepsInv(cfg, slow, frameMdu, events[..|events| - 1]);
      hide Inv;
      StepKeepsInv(cfg, slow, Run(cfg, Start(cfg, slow, frameMdu), events[..|events| - 1]), events[|events| - 1]);
    }
  }

  lemma InitialChannel<M(!new)>(cfg: Config<M>, slow: bool)
    requires Sound(cfg)
    ensures Delivery.FirstLapInv(cfg.port, slow, Delivery.Open(slow, cfg.port))
  {
    Delivery.FirstLapRun(cfg.port, slow, []);
    assert Delivery.Run(Delivery.Open(slow, cfg.port), cfg.port, []) == Delivery.Open(slow, cfg.port);
  }

  /** For every network, every interleaving and every other traffic on the channel, while fewer
      than 65536 channel messages have been accepted: the bytes the reader has emitted are a
      prefix of the bytes written; once it has caught up they are all the bytes accepted
      frames stand for; and a reader that saw the end of the stream has read all of it. */
  lemma BytesReadArePrefixOfBytesWritten<M(!new)>(cfg: Config<M>, slow: bool, frameMdu: nat, events: seq<Event>)
    requires Sound(cfg) && frameMdu > 0 && forall e :: e in events ==> OneWriter(cfg, e)
    requires |Run(cfg, Start(cfg, slow, frameMdu), events).channel.sender.accepted| < LAP
    ensures var s := Run(cfg, Start(cfg, slow, frameMdu), events);
            && IsPrefix(s.reader.out, s.writer.written)
            && s.writer.sent <= |s.writer.written|
            && (s.reader.pos == |s.channel.sender.accepted| && s.reader.buffer == [] ==>
                  s.reader.out == s.writer.written[..s.writer.sent])
            && (s.reader.closed ==> s.reader.out == s.writer.written)
  {
    hide Run, StreamBytes, FrameIn, Delivery.FirstLapInv, Sound;
    RunKeepsInv(cfg, slow, frameMdu, events);
    var s := Run(cfg, Start(cfg, slow, frameMdu), events);
    var accepted, r := s.channel.sender.accepted, s.reader;
    StreamBytesMonotone(cfg.z, cfg.streamId, accepted, r.pos);
    if r.pos == |accepted| {
      assert accepted[..r.pos] == accepted;
    }
    if r.closed {
      StreamBytesMonotone(cfg.z, cfg.streamId, accepted[..r.pos], r.pos - 1);
      assert accepted[..r.pos][..r.pos - 1] == accepted[..r.pos - 1];
    }
  }

  // ---- The reader gets everything that is delivered ----------------------------------------

  /** What one delivered channel message adds to the stream, and whether it ends it. */
  function DataFor<M>(cfg: Config<M>, held: Held<M>): Bytes {
    var f := cfg.frameOf(held);
    if IsFor(f, cfg.streamId) then f.value.data else []
  }

  predicate EndsStream<M>(cfg: Config<M>, held: Held<M>) {
    var f := cfg.frameOf(held);
    IsFor(f, cfg.streamId) && f.value.eof
  }

  predicate Ended<M>(cfg: Config<M>, log: seq<Held<M>>) {
    exists k :: 0 <= k < |log| && EndsStream(cfg, log[k])
  }

  /** The data of all frames of the stream among delivered messages, up to the first end mark. */
  function Emitted<M>(cfg: Config<M>, log: seq<Held<M>>): Bytes {
    if log == [] then []
    else
      var before := log[..|log| - 1];
      Emitted(cfg, before) + if Ended(cfg, before) then [] else DataFor(cfg, log[|log| - 1])
  }

  /** The reader has emitted, or holds, what the messages before its place amount to. */
  ghost predicate Keeps<M>(cfg: Config<M>, log: seq<Held<M>>, r: Reader) {
    && r.pos <= |log|
    && r.out + r.buffer == Emitted(cfg, log[..r.pos])
    && (r.ending <==> Ended(cfg, log[..r.pos]))
    && (r.closed <==> r.ending && r.buffer == [])
  }

  lemma EmittedAppend<M>(cfg: Config<M>, log: seq<Held<M>>, held: Held<M>)
    ensures Emitted(cfg, log + [held]) == Emitted(cfg, log) + if Ended(cfg, log) then [] else DataFor(cfg, held)
    ensures Ended(cfg, log + [held]) <==> Ended(cfg, log) || EndsStream(cfg, held)
  {
    hide DataFor, EndsStream;
    assert (log + [held])[..|log|] == log;
    if Ended(cfg, log) {
      var k :| 0 <= k < |log| && EndsStream(cfg, log[k]);
      assert EndsStream(cfg, (log + [held])[k]);
    }
    if EndsStream(cfg, held) {
      assert EndsStream(cfg, (log + [held])[|log|]);
    }
  }

  lemma AdvanceKeeps<M>(cfg: Config<M>, log: seq<Held<M>>, r: Reader)
    requires Keeps(cfg, log, r)
    ensures Keeps(cfg, log, Advance(cfg, r, log))
  {
    hide Emitted, Ended;
    if !r.closed && r.buffer != [] {
      var take := Min(|r.buffer|, SLICE);
      Regrouped(r.out, r.buffer[..take], r.buffer[take..]);
      assert r.buffer[..take] + r.buffer[take..] == r.buffer;
    } else if !r.closed && r.pos < |log| {
      EmittedAppend(cfg, log[..r.pos], log[r.pos]);
      assert log[..r.pos] + [log[r.pos]] == log[..r.pos + 1];
    }
  }

  lemma {:induction false} RunKeeps<M>(cfg: Config<M>, slow: bool, frameMdu: nat, events: seq<Event>)
    ensures var s := Run(cfg, Start(cfg, slow, frameMdu), events); Keeps(cfg, s.channel.log, s.reader)
    decreases |events|
  {
    hide Advance, Offer, ChannelStep, CutFrame;
    if events != [] {
      RunKeeps(cfg, slow, frameMdu, events[..|events| - 1]);
      var s, e := Run(cfg, Start(cfg, slow, frameMdu), events[..|events| - 1]), events[|events| - 1];
      hide Run, Keeps;
      if e.Read? {
        AdvanceKeeps(cfg, s.channel.log, s.reader);
      } else {
        StepExtendsLog(cfg, s, e);
        KeepsExtends(cfg, s.channel.log, Step(cfg, s, e).channel.log, s.reader);
      }
    }
  }

  lemma StepExtendsLog<M>(cfg: Config<M>, s: System<M>, e: Event)
    requires !e.Read?
    ensures var t := Step(cfg, s, e); t.reader == s.reader && IsPrefix(s.channel.log, t.channel.log)
  {
    hide Delivery.Step, CutFrame, PackBytes;
    var w := s.writer;
    match e
    case Elsewhere(event) => ChannelStepExtends(cfg.port, s.channel, event);
    case SendFrame(outlet, hash) =>
      if w.sent < w.taken <= |w.written| {
        var f := DataFrame(cfg.streamId, CutFrame(cfg.z, w.written[w.sent..w.taken], w.frameMdu));
        OfferExtendsLog(cfg, s, outlet, hash, f);
      }
    case SendEof(outlet, hash) => OfferExtendsLog(cfg, s, outlet, hash, Frame(cfg.streamId, [], true, false));
    case _ =>
  }

  lemma OfferExtendsLog<M>(cfg: Config<M>, s: System<M>, outlet: Outbound.Outlet, hash: Outbound.Hash, f: Frame)
    ensures var e := Delivery.Outgoing(Outbound.SendEvent(outlet, SMT_STREAM_DATA, PackBytes(f), hash));
            IsPrefix(s.channel.log, Delivery.Step(s.channel, cfg.port, e).log)
  {
    ChannelStepExtends(cfg.port, s.channel,
                       Delivery.Outgoing(Outbound.SendEvent(outlet, SMT_STREAM_DATA, PackBytes(f), hash)));
  }

  lemma KeepsExtends<M>(cfg: Config<M>, log: seq<Held<M>>, longer: seq<Held<M>>, r: Reader)
    requires Keeps(cfg, log, r) && IsPrefix(log, longer)
    ensures Keeps(cfg, longer, r)
  {
    hide Emitted, Ended;
    assert longer[..r.pos] == log[..r.pos];
  }

  /** How many steps the reader has before it at most: one for each message, and one for each byte. */
  function Pending<M>(cfg: Config<M>, log: seq<Held<M>>, pos: nat): nat
    decreases |log| - pos
  {
    if pos >= |log| then 0 else 1 + |DataFor(cfg, log[pos])| + Pending(cfg, log, pos + 1)
  }

  function Work<M>(cfg: Config<M>, log: seq<Held<M>>, r: Reader): nat {
    |r.buffer| + Pending(cfg, log, r.pos)
  }

  predicate CaughtUp<M>(log: seq<Held<M>>, r: Reader) {
    r.closed || (r.pos == |log| && r.buffer == [])
  }

  function AdvanceMany<M>(cfg: Config<M>, r: Reader, log: seq<Held<M>>, n: nat): Reader {
    if n == 0 then r else Advance(cfg, AdvanceMany(cfg, r, log, n - 1), log)
  }

  lemma AdvanceWorks<M>(cfg: Config<M>, log: seq<Held<M>>, r: Reader)
    requires r.pos <= |log|
    ensures CaughtUp(log, r) ==> CaughtUp(log, Advance(cfg, r, log))
    ensures !CaughtUp(log, r) ==> Work(cfg, log, Advance(cfg, r, log)) < Work(cfg, log, r)
  {
  }

  lemma {:induction false} ManyKeep<M>(cfg: Config<M>, log: seq<Held<M>>, r: Reader, n: nat)
    requires Keeps(cfg, log, r)
    ensures var q := AdvanceMany(cfg, r, log, n);
            Keeps(cfg, log, q) && (CaughtUp(log, q) || Work(cfg, log, q) + n <= Work(cfg, log, r))
  {
    hide Advance, Emitted, Ended, Work;
    if n > 0 {
      ManyKeep(cfg, log, r, n - 1);
      AdvanceKeeps(cfg, log, AdvanceMany(cfg, r, log, n - 1));
      AdvanceWorks(cfg, log, AdvanceMany(cfg, r, log, n - 1));
    }
  }

  /** From any place, with nothing more delivered, the reader ends within that many steps, having
      emitted the whole stream; it closes exactly if there was an end mark. */
  lemma ReaderCatchesUp<M>(cfg: Config<M>, log: seq<Held<M>>, r: Reader, n: nat)
    requires Keeps(cfg, log, r) && n >= Work(cfg, log, r)
    ensures var q := AdvanceMany(cfg, r, log, n);
            CaughtUp(log, q) && q.out == Emitted(cfg, log) && (q.closed <==> Ended(cfg, log))
  {
    hide AdvanceMany, Emitted, Ended;
    ManyKeep(cfg, log, r, n);
    var q := AdvanceMany(cfg, r, log, n);
    assert CaughtUp(log, q);
    assert q.out + [] == q.out;
    if q.closed {
      EndedIsFinal(cfg, log, q.pos);
    } else {
      assert log[..q.pos] == log;
    }
  }

  lemma {:induction false} EndedIsFinal<M>(cfg: Config<M>, log: seq<Held<M>>, k: nat)
    requires k <= |log| && Ended(cfg, log[..k])
    ensures Ended(cfg, log) && Emitted(cfg, log) == Emitted(cfg, log[..k])
    decreases |log|
  {
    hide Ended, DataFor, EndsStream;
    if k == |log| {
      assert log[..k] == log;
    } else {
      var shorter := log[..|log| - 1];
      assert shorter[..k] == log[..k] && shorter + [log[|log| - 1]] == log;
      EndedIsFinal(cfg, shorter, k);
      EmittedAppend(cfg, shorter, log[|log| - 1]);
    }
  }

  function ReadSteps(n: nat): seq<Event> {
    seq(n, _ => Read)
  }

  lemma {:induction false} ReadsAdvance<M>(cfg: Config<M>, s: System<M>, n: nat)
    ensures Run(cfg, s, ReadSteps(n)) == s.(reader := AdvanceMany(cfg, s.reader, s.channel.log, n))
  {
    hide Advance;
    if n > 0 {
      ReadsAdvance(cfg, s, n - 1);
      assert ReadSteps(n)[..n - 1] == ReadSteps(n - 1);
    }
  }

  lemma {:induction false} RunAppends<M>(cfg: Config<M>, s: System<M>, before: seq<Event>, more: seq<Event>)
    ensures Run(cfg, s, before + more) == Run(cfg, Run(cfg, s, before), more)
    decreases |more|
  {
    hide Step;
    if more == [] {
      assert before + more == before;
    } else {
      assert (before + more)[..|before + more| - 1] == before + more[..|more| - 1];
      RunAppends(cfg, s, before, more[..|more| - 1]);
    }
  }

  /** After any run, given time to read and nothing else, the reader has emitted every byte of the
      stream that the channel delivered, and has closed exactly if the end mark was delivered. */
  lemma EverythingDeliveredIsRead<M(!new)>(cfg: Config<M>, slow: bool, frameMdu: nat, events: seq<Event>, n: nat)
    requires Sound(cfg) && frameMdu > 0 && forall e :: e in events ==> OneWriter(cfg, e)
    requires var s := Run(cfg, Start(cfg, slow, frameMdu), events);
             |s.channel.sender.accepted| < LAP && n >= Work(cfg, s.channel.log, s.reader)
    ensures var s := Run(cfg, Start(cfg, slow, frameMdu), events);
            var t := Run(cfg, Start(cfg, slow, frameMdu), events + ReadSteps(n));
            && t.channel == s.channel && t.writer == s.writer && CaughtUp(s.channel.log, t.reader)
            && t.reader.out == Emitted(cfg, s.channel.log)
            && (t.reader.closed <==> Ended(cfg, s.channel.log))
            && |s.channel.log| <= |s.channel.sender.accepted|
            && t.reader.out == StreamBytes(cfg.z, cfg.streamId, s.channel.sender.accepted[..|s.channel.log|])
  {
    hide Run, Keeps, Emitted, Ended, StreamBytes, FrameIn, Delivery.FirstLapInv, Sound, AdvanceMany, OneWriter, Work;
    var start := Start(cfg, slow, frameMdu);
    var s := Run(cfg, start, events);
    RunKeeps(cfg, slow, frameMdu, events);
    RunAppends(cfg, start, events, ReadSteps(n));
    ReadsAdvance(cfg, s, n);
    ReaderCatchesUp(cfg, s.channel.log, s.reader, n);
    ReadsAreHarmless(cfg, events, n);
    RunKeepsInv(cfg, slow, frameMdu, events + ReadSteps(n));
    var t := Run(cfg, start, events + ReadSteps(n));
    CaughtUpHasAll(cfg, t.channel.sender.accepted, t.writer, t.channel.log, t.reader);
  }

  lemma ReadsAreHarmless<M>(cfg: Config<M>, events: seq<Event>, n: nat)
    requires forall e :: e in events ==> OneWriter(cfg, e)
    ensures forall e :: e in events + ReadSteps(n) ==> OneWriter(cfg, e)
  {
    hide NotOurs;
  }

  /** A reader that caught up has read all of the stream's bytes among the delivered messages. */
  lemma CaughtUpHasAll<M>(cfg: Config<M>, accepted: seq<Outbound.Message>, w: Writer, log: seq<Held<M>>, r: Reader)
    requires Framed(cfg, accepted, w) && Reads(cfg, accepted, log, r) && CaughtUp(log, r)
    ensures r.out == StreamBytes(cfg.z, cfg.streamId, accepted[..|log|])
  {
    hide StreamBytes, FrameIn;
    assert r.out + [] == r.out;
    if r.closed {
      StreamBytesMonotone(cfg.z, cfg.streamId, accepted, |log|);
      StreamBytesMonotone(cfg.z, cfg.streamId, accepted[..|log|], r.pos);
      assert accepted[..|log|][..r.pos] == accepted[..r.pos];
      StreamBytesMonotone(cfg.z, cfg.streamId, accepted[..r.pos], r.pos - 1);
      assert accepted[..r.pos][..r.pos - 1] == accepted[..r.pos - 1];
    }
  }

  // ---- The two ways to subscribe ----------------------------------------------------------

  /** `attach_reader`: stream frames are registered on a channel that may carry anything. */
  function Attached<M>(z: Compressor, unpack: Unpacker<M>, streamId: U16): Config<M> {
    Config(
      z,
      Delivery.Port(unpack, {SMT_STREAM_DATA}, {}),
      (held: Held<M>) => match held
                         case Registered(t, payload) => if t == SMT_STREAM_DATA then UnpackBytes(z, payload) else None
                         case Primary(_) => None,
      streamId,
      false)
  }

  /** `create_reader`: the frame is the channel's primary type. */
  function Dedicated(z: Compressor, streamId: U16): Config<Frame> {
    Config(
      z,
      Delivery.Port((payload: Bytes, messageType: U16) => UnpackBytes(z, payload), {}, {SMT_STREAM_DATA}),
      (held: Held<Frame>) => match held
                             case Primary(f) => Some(f)
                             case Registered(_, _) => None,
      streamId,
      true)
  }

  lemma AttachedIsSound<M(!new)>(z: Compressor, unpack: Unpacker<M>, streamId: U16)
    requires Lossless(z) && streamId <= STREAM_ID_MAX
    ensures Sound(Attached(z, unpack, streamId))
  {
    hide UnpackBytes, Lossless;
  }

  lemma DedicatedIsSound(z: Compressor, streamId: U16)
    requires Lossless(z) && streamId <= STREAM_ID_MAX
    ensures Sound(Dedicated(z, streamId))
  {
    hide UnpackBytes, Lossless;
  }

  /** Exactly which messages a dedicated reader takes for its stream, whatever their type: those that
      reach it as the primary type and unpack as a frame of its id. */
  lemma DedicatedTakesIff(z: Compressor, streamId: U16, m: Outbound.Message, held: Held<Frame>)
    requires Delivery.Carries(Dedicated(z, streamId).port, held, m)
    ensures IsFor(Dedicated(z, streamId).frameOf(held), streamId) <==>
              held.Primary? && IsFor(UnpackBytes(z, m.payload), streamId)
    ensures Speaks(Dedicated(z, streamId).frameOf(held), streamId) <==>
              held.Primary? && Speaks(UnpackBytes(z, m.payload), streamId)
  {
    hide UnpackBytes;
  }

  /** Any number of streams can share a channel: what the writer of another id sends, data or end mark,
      compressed or not, is nothing to a reader attached to the channel. */
  lemma OtherStreamsAreNotOurs<M>(z: Compressor, unpack: Unpacker<M>, streamId: U16, f: Frame, plain: Bytes,
                                  outlet: Outbound.Outlet, hash: Outbound.Hash)
    requires Lossless(z) && f.streamId <= STREAM_ID_MAX && f.streamId != streamId
    requires if f.compressed then f.data == z.compress(plain) && |f.data| < |plain| <= MAX_CHUNK_LEN
             else f.data == plain
    ensures var send := Outbound.SendEvent(outlet, SMT_STREAM_DATA, PackBytes(f), hash);
            NotOurs(Attached(z, unpack, streamId), Delivery.Outgoing(send))
            && NotOurs(Dedicated(z, streamId), Delivery.Outgoing(send))
  {
    hide PackBytes, UnpackBytes, Lossless;
    FrameRoundTrip(z, f, plain);
  }

  /** A sender that may send anything that fits a packet. */
  const OPEN_LINK: Outbound.Outlet := Outbound.Outlet(true, false, true, 2048, true, true)

  /** One message of a foreign type on a fresh dedicated channel, sent and received. */
  lemma ForeignArrives(z: Compressor, streamId: U16, slow: bool, messageType: U16, payload: Bytes)
    requires UnpackBytes(z, payload).Some? && SizeAccepted(OPEN_LINK.mdu, |payload|)
    ensures var port := Dedicated(z, streamId).port;
            var c := Delivery.Step(Delivery.Open(slow, port), port,
                                   Delivery.Outgoing(Outbound.SendEvent(OPEN_LINK, messageType, payload, 0)));
            var d := Delivery.Step(c, port, Delivery.Arrival(0));
            d.log == [Primary(UnpackBytes(z, payload).value)]
  {
    hide UnpackBytes, EnvelopeRaw, DeenvelopeRaw, SizeAccepted;
    var port := Dedicated(z, streamId).port;
    var c0, m := Delivery.Open(slow, port), Outbound.Message(0, messageType, payload);
    var held := Primary(UnpackBytes(z, payload).value);
    var c := Delivery.Step(c0, port, Delivery.Outgoing(Outbound.SendEvent(OPEN_LINK, messageType, payload, 0)));
    assert c.sender.accepted == [m] && |c.sender.wire| == 1;
    assert c.sender.wire[0].raw == Outbound.RawOf(c.sender.accepted, 0);
    Delivery.ReceiveAccepted(port, c, c.sender.wire[0], 0);
    assert Decode(port.unpack, c.registry, messageType, payload) == Some(held);
    DrainsFirst(held);
  }

  lemma DrainsFirst<M>(held: Held<M>)
    ensures Drain(State(map[0 := held], 0)).1 == [held]
  {
    var s := State(map[0 := held], 0);
    var rest := State(s.onHold - {0}, NextSequence(0));
    assert rest.onHold == map[];
    assert Drain(rest).1 == [];
  }

  /** The promise to the reader of a stream. */
  ghost predicate Kept<M>(s: System<M>) {
    IsPrefix(s.reader.out, s.writer.written) && (s.reader.closed ==> s.reader.out == s.writer.written)
  }

  /** The condition of the theorem is exact for a dedicated reader: whatever its type, any payload
      that speaks to the reader and fits a packet breaks the promise in some run in which it is the
      only thing sent. */
  lemma ForeignFrameMisleads(z: Compressor, streamId: U16, slow: bool, frameMdu: nat, messageType: U16, payload: Bytes)
    returns (events: seq<Event>)
    requires Speaks(UnpackBytes(z, payload), streamId) && SizeAccepted(OPEN_LINK.mdu, |payload|)
    ensures var cfg := Dedicated(z, streamId);
            var s := Run(cfg, Start(cfg, slow, frameMdu), events);
            !Kept(s) && s.channel.sender.accepted == [Outbound.Message(0, messageType, payload)]
  {
    hide UnpackBytes, SizeAccepted, Delivery.Step, FrameIn;
    var cfg := Dedicated(z, streamId);
    var f := UnpackBytes(z, payload).value;
    var send := Delivery.Outgoing(Outbound.SendEvent(OPEN_LINK, messageType, payload, 0));
    var written: Bytes := if f.data != [] then [] else [0];
    events := [UserWrite(written), Elsewhere(send), Elsewhere(Delivery.Arrival(0)), Read, Read];
    ForeignArrives(z, streamId, slow, messageType, payload);
    ForeignIsAccepted(z, streamId, slow, messageType, payload);
    var s0 := Start(cfg, slow, frameMdu);
    var s1 := Step(cfg, s0, events[0]);
    var s2 := Step(cfg, s1, events[1]);
    var s3 := Step(cfg, s2, events[2]);
    var s4 := Step(cfg, s3, Read);
    var s5 := Step(cfg, s4, Read);
    assert s1.writer.written == written;
    assert s3.channel.log == [Primary(f)];
    assert s4.reader == Reader(1, f.data, f.eof, f.eof && f.data == [], []);
    RunFive(cfg, s0, events);
    if f.data != [] {
      assert |s5.reader.out| > 0;
    }
  }

  lemma ForeignIsAccepted(z: Compressor, streamId: U16, slow: bool, messageType: U16, payload: Bytes)
    requires SizeAccepted(OPEN_LINK.mdu, |payload|)
    ensures var port := Dedicated(z, streamId).port;
            var c := Delivery.Step(Delivery.Open(slow, port), port,
                                   Delivery.Outgoing(Outbound.SendEvent(OPEN_LINK, messageType, payload, 0)));
            c.sender.accepted == [Outbound.Message(0, messageType, payload)]
            && Delivery.Step(c, port, Delivery.Arrival(0)).sender == c.sender
  {
    hide UnpackBytes, EnvelopeRaw, DeenvelopeRaw, SizeAccepted;
  }

  lemma RunFive<M>(cfg: Config<M>, s: System<M>, e: seq<Event>)
    requires |e| == 5
    ensures Run(cfg, s, e) == Step(cfg, Step(cfg, Step(cfg, Step(cfg, Step(cfg, s, e[0]), e[1]), e[2]), e[3]), e[4])
  {
    hide Step;
    assert e[..4][..3] == e[..3] && e[..3][..2] == e[..2] && e[..2][..1] == e[..1] && e[..1][..0] == [];
    assert Run(cfg, s, e[..1]) == Step(cfg, s, e[0]);
    assert Run(cfg, s, e[..2]) == Step(cfg, Run(cfg, s, e[..1]), e[1]);
    assert Run(cfg, s, e[..3]) == Step(cfg, Run(cfg, s, e[..2]), e[2]);
    assert Run(cfg, s, e[..4]) == Step(cfg, Run(cfg, s, e[..3]), e[3]);
  }
}

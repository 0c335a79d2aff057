/** Streaming one-pole filters (lxst/src/filters.rs): frame by frame with carried state. */
module Filters {
  import opened Octets

  /** A 32-bit float, by bit pattern. */
  datatype Sample = Sample(bits: nat)

  /** Float arithmetic and the two coefficient formulas, of which nothing need be known. */
  datatype Arithmetic = Arithmetic(
    zero: Sample,
    one: Sample,
    plus: (Sample, Sample) -> Sample,
    minus: (Sample, Sample) -> Sample,
    times: (Sample, Sample) -> Sample,
    highAlpha: (nat, nat) -> Sample,
    lowAlpha: (nat, nat) -> Sample)

  /** Interleaved samples: row after row, one sample per channel. */
  datatype Frame = Frame(samples: seq<Sample>, channels: nat)

  datatype Kind = HighPassKind | LowPassKind

  /** What a channel carries over: its last output and, for the high-pass, its last input. */
  datatype Memory = Memory(y: Sample, x: Sample)

  datatype State = State(samplerate: Option<nat>, channels: Option<nat>, memories: seq<Memory>, alpha: Sample)

  // ---- One channel ----------------------------------------------------------------------------

  /** The per-sample expression, the same inside a frame and across its boundary. */
  function Advance(a: Arithmetic, kind: Kind, alpha: Sample, m: Memory, x: Sample): Memory {
    match kind
    case HighPassKind => Memory(a.times(alpha, a.plus(m.y, a.minus(x, m.x))), x)
    case LowPassKind => Memory(a.plus(a.times(alpha, x), a.times(a.minus(a.one, alpha), m.y)), m.x)
  }

  function After(a: Arithmetic, kind: Kind, alpha: Sample, m: Memory, xs: seq<Sample>): Memory {
    if xs == [] then m else Advance(a, kind, alpha, After(a, kind, alpha, m, xs[..|xs| - 1]), xs[|xs| - 1])
  }

  /** The output of a channel: one sample per input sample. */
  function Filtered(a: Arithmetic, kind: Kind, alpha: Sample, m: Memory, xs: seq<Sample>): (ys: seq<Sample>)
    ensures |ys| == |xs|
  {
    if xs == [] then []
    else Filtered(a, kind, alpha, m, xs[..|xs| - 1]) + [After(a, kind, alpha, m, xs).y]
  }

  lemma {:induction false} FilteredAt(a: Arithmetic, kind: Kind, alpha: Sample, m: Memory, xs: seq<Sample>, i: nat)
    requires i < |xs|
    ensures Filtered(a, kind, alpha, m, xs)[i] == After(a, kind, alpha, m, xs[..i + 1]).y
  {
    if i < |xs| - 1 {
      FilteredAt(a, kind, alpha, m, xs[..|xs| - 1], i);
      assert xs[..|xs| - 1][..i + 1] == xs[..i + 1];
    } else {
      assert xs[..i + 1] == xs;
    }
  }

  /** Cutting a channel's signal anywhere and carrying the memory over changes nothing. */
  lemma {:induction false} ChannelSplits(a: Arithmetic, kind: Kind, alpha: Sample, m: Memory, xs: seq<Sample>,
                                         ys: seq<Sample>)
    ensures After(a, kind, alpha, m, xs + ys) == After(a, kind, alpha, After(a, kind, alpha, m, xs), ys)
    ensures Filtered(a, kind, alpha, m, xs + ys)
            == Filtered(a, kind, alpha, m, xs) + Filtered(a, kind, alpha, After(a, kind, alpha, m, xs), ys)
    decreases |ys|
  {
    if ys == [] {
      assert xs + ys == xs;
    } else {
      var n := |ys| - 1;
      assert (xs + ys)[..|xs| + n] == xs + ys[..n];
      ChannelSplits(a, kind, alpha, m, xs, ys[..n]);
    }
  }

  // ---- Interleaving ---------------------------------------------------------------------------

  /** The number of complete rows. */
  function Rows(f: Frame): nat
    requires f.channels > 0
  {
    |f.samples| / f.channels
  }

  lemma CompleteRows(n: nat, channels: nat)
    requires channels > 0
    ensures n / channels * channels <= n
    ensures n >= channels ==> n / channels > 0
  {
    assert n == n / channels * channels + n % channels;
  }

  /** Every row is complete, as the frame type documents. */
  predicate WellFormed(f: Frame): (complete: bool)
    ensures complete ==> Handleable(f)
  {
    f.channels > 0 && (ProductMonotone(1, Rows(f), f.channels); |f.samples| == Rows(f) * f.channels)
  }

  function Index(i: nat, ch: nat, channels: nat): nat {
    i * channels + ch
  }

  lemma IndexInRange(i: nat, ch: nat, rows: nat, channels: nat)
    requires i < rows && ch < channels
    ensures Index(i, ch, channels) < rows * channels
  {
    assert (i + 1) * channels <= rows * channels;
  }

  lemma IndexSplits(i: nat, ch: nat, channels: nat)
    requires ch < channels
    ensures Index(i, ch, channels) / channels == i && Index(i, ch, channels) % channels == ch
  {
    Quotient(Index(i, ch, channels), channels, i, ch);
  }

  lemma Quotient(n: nat, d: nat, q: nat, r: nat)
    requires d > 0 && n == q * d + r && r < d
    ensures n / d == q && n % d == r
  {
    var p := n / d;
    assert n == p * d + n % d;
    ProductMonotone(q + 1, p, d);
    ProductMonotone(p + 1, q, d);
  }

  function Channel(f: Frame, ch: nat): (xs: seq<Sample>)
    requires ch < f.channels
    ensures |xs| == Rows(f)
  {
    var rows := Rows(f);
    CompleteRows(|f.samples|, f.channels);
    seq(rows, i requires 0 <= i < rows => (IndexInRange(i, ch, rows, f.channels); f.samples[Index(i, ch, f.channels)]))
  }

  lemma ChannelAt(f: Frame, ch: nat, i: nat)
    requires ch < f.channels && i < Rows(f)
    ensures Index(i, ch, f.channels) < |f.samples| && Channel(f, ch)[i] == f.samples[Index(i, ch, f.channels)]
  {
    CompleteRows(|f.samples|, f.channels);
    IndexInRange(i, ch, Rows(f), f.channels);
  }

  /** A frame is determined by its channels. */
  lemma SameChannels(f: Frame, g: Frame)
    requires WellFormed(f) && WellFormed(g) && f.channels == g.channels && Rows(f) == Rows(g)
    requires forall ch :: 0 <= ch < f.channels ==> Channel(f, ch) == Channel(g, ch)
    ensures f == g
  {
    hide Channel, Index, Rows;
    forall k | 0 <= k < |f.samples| ensures f.samples[k] == g.samples[k] {
      SameSample(f, g, k);
    }
    assert f.samples == g.samples;
  }

  lemma SameSample(f: Frame, g: Frame, k: nat)
    requires f.channels == g.channels > 0 && Rows(f) == Rows(g)
    requires k < |f.samples| == |g.samples| == Rows(f) * f.channels
    requires forall ch :: 0 <= ch < f.channels ==> Channel(f, ch) == Channel(g, ch)
    ensures f.samples[k] == g.samples[k]
  {
    hide Channel, Index, Rows;
    RowOfIndex(k, Rows(f), f.channels);
    ChannelAt(f, k % f.channels, k / f.channels);
    ChannelAt(g, k % f.channels, k / f.channels);
  }

  lemma RowOfIndex(k: nat, rows: nat, channels: nat)
    requires channels > 0 && k < rows * channels
    ensures k / channels < rows && k % channels < channels && k == Index(k / channels, k % channels, channels)
  {
    ProductMonotone(rows, k / channels, channels);
  }

  function Joined(f: Frame, g: Frame): Frame {
    Frame(f.samples + g.samples, f.channels)
  }

  lemma JoinedChannels(f: Frame, g: Frame)
    requires WellFormed(f) && WellFormed(g) && f.channels == g.channels
    ensures WellFormed(Joined(f, g)) && Rows(Joined(f, g)) == Rows(f) + Rows(g)
    ensures forall ch :: 0 <= ch < f.channels ==> Channel(Joined(f, g), ch) == Channel(f, ch) + Channel(g, ch)
  {
    hide Channel, Index;
    var c, all := f.channels, Joined(f, g);
    Quotient(|f.samples + g.samples|, c, Rows(f) + Rows(g), 0);
    forall ch | 0 <= ch < c ensures Channel(all, ch) == Channel(f, ch) + Channel(g, ch) {
      forall i | 0 <= i < Rows(f) + Rows(g) ensures Channel(all, ch)[i] == (Channel(f, ch) + Channel(g, ch))[i] {
        ChannelAt(all, ch, i);
        if i < Rows(f) {
          ChannelAt(f, ch, i);
        } else {
          ChannelAt(g, ch, i - Rows(f));
          IndexShifts(i, ch, Rows(f), c);
        }
      }
    }
  }

  lemma IndexShifts(i: nat, ch: nat, rows: nat, channels: nat)
    requires rows <= i
    ensures Index(i, ch, channels) == rows * channels + Index(i - rows, ch, channels)
  {
  }

  function Interleaved(columns: seq<seq<Sample>>, rows: nat): Frame
    requires columns != [] && forall ch :: 0 <= ch < |columns| ==> |columns[ch]| == rows
  {
    Frame(seq(rows * |columns|, k requires 0 <= k < rows * |columns| => Cell(columns, rows, k)), |columns|)
  }

  function Cell(columns: seq<seq<Sample>>, rows: nat, k: nat): Sample
    requires columns != [] && k < rows * |columns|
    requires forall ch :: 0 <= ch < |columns| ==> |columns[ch]| == rows
  {
    RowOfIndex(k, rows, |columns|);
    columns[k % |columns|][k / |columns|]
  }

  lemma InterleavedChannels(columns: seq<seq<Sample>>, rows: nat)
    requires columns != [] && forall ch :: 0 <= ch < |columns| ==> |columns[ch]| == rows
    ensures var f := Interleaved(columns, rows);
            && WellFormed(f) && Rows(f) == rows && f.channels == |columns|
            && forall ch :: 0 <= ch < |columns| ==> Channel(f, ch) == columns[ch]
  {
    var f, c := Interleaved(columns, rows), |columns|;
    Quotient(rows * c, c, rows, 0);
    forall ch | 0 <= ch < c ensures Channel(f, ch) == columns[ch] {
      forall i | 0 <= i < rows ensures Channel(f, ch)[i] == columns[ch][i] {
        IndexInRange(i, ch, rows, c);
        IndexSplits(i, ch, c);
      }
    }
  }

  // ---- Frames ---------------------------------------------------------------------------------

  function Alpha(a: Arithmetic, kind: Kind, cut: nat, rate: nat): Sample {
    if kind.HighPassKind? then a.highAlpha(cut, rate) else a.lowAlpha(cut, rate)
  }

  function Configured(a: Arithmetic, kind: Kind, cut: nat, s: State, rate: nat): State {
    if s.samplerate == Some(rate) then s else s.(samplerate := Some(rate), alpha := Alpha(a, kind, cut, rate))
  }

  /** A change of channel count forgets the memories; a change of rate does not. */
  function Ready(a: Arithmetic, kind: Kind, cut: nat, s: State, rate: nat, channels: nat): (r: State)
    ensures r.samplerate == Some(rate) && r.channels == Some(channels) && |r.memories| == channels
  {
    var configured := Configured(a, kind, cut, s, rate);
    if s.channels == Some(channels) && |s.memories| == channels then configured
    else configured.(channels := Some(channels), memories := seq(channels, _ => Memory(a.zero, a.zero)))
  }

  function Columns(a: Arithmetic, kind: Kind, ready: State, f: Frame): (columns: seq<seq<Sample>>)
    requires |ready.memories| == f.channels > 0
    ensures |columns| == f.channels && forall ch :: 0 <= ch < |columns| ==> |columns[ch]| == Rows(f)
  {
    seq(f.channels, ch requires 0 <= ch < f.channels =>
        Filtered(a, kind, ready.alpha, ready.memories[ch], Channel(f, ch)))
  }

  function Memories(a: Arithmetic, kind: Kind, ready: State, f: Frame): (ms: seq<Memory>)
    requires |ready.memories| == f.channels > 0
    ensures |ms| == f.channels
  {
    seq(f.channels, ch requires 0 <= ch < f.channels => After(a, kind, ready.alpha, ready.memories[ch], Channel(f, ch)))
  }

  datatype Handled = Handled(state: State, frame: Frame)

  /** All frames but those shorter than one row, on which the source panics. */
  predicate Handleable(f: Frame) {
    f.samples == [] || f.channels == 0 || |f.samples| >= f.channels
  }

  /** `handle_frame`. An empty frame is returned as it is and touches nothing; samples after the last
      complete row are dropped. */
  function Handle(a: Arithmetic, kind: Kind, cut: nat, s: State, f: Frame, rate: nat): Handled
    requires Handleable(f)
  {
    var ready := Ready(a, kind, cut, s, rate, f.channels);
    if f.samples == [] then Handled(s, f)
    else if f.channels == 0 then Handled(ready, Frame([], 0))
    else Handled(ready.(memories := Memories(a, kind, ready, f)), Interleaved(Columns(a, kind, ready, f), Rows(f)))
  }

  /** The output has the complete rows of the input, and only those. */
  lemma HandledIsWellFormed(a: Arithmetic, kind: Kind, cut: nat, s: State, f: Frame, rate: nat)
    requires Handleable(f)
    ensures var out := Handle(a, kind, cut, s, f, rate).frame;
            && out.channels == f.channels && Handleable(out)
            && (f.channels > 0 ==> (out.samples == [] <==> f.samples == []) && Rows(out) == Rows(f) && WellFormed(out))
  {
    if f.samples != [] && f.channels > 0 {
      CompleteRows(|f.samples|, f.channels);
      InterleavedChannels(Columns(a, kind, Ready(a, kind, cut, s, rate, f.channels), f), Rows(f));
    }
  }

  function Complete(f: Frame): Frame
    requires f.channels > 0
  {
    CompleteRows(|f.samples|, f.channels);
    Frame(f.samples[..Rows(f) * f.channels], f.channels)
  }

  lemma CompleteChannels(f: Frame)
    requires f.channels > 0
    ensures WellFormed(Complete(f)) && Rows(Complete(f)) == Rows(f)
    ensures forall ch :: 0 <= ch < f.channels ==> Channel(Complete(f), ch) == Channel(f, ch)
  {
    hide Channel, Index;
    var g, c := Complete(f), f.channels;
    CompleteRows(|f.samples|, c);
    Quotient(Rows(f) * c, c, Rows(f), 0);
    forall ch | 0 <= ch < c ensures Channel(g, ch) == Channel(f, ch) {
      forall i | 0 <= i < Rows(f) ensures Channel(g, ch)[i] == Channel(f, ch)[i] {
        ChannelAt(f, ch, i);
        ChannelAt(g, ch, i);
      }
    }
  }

  /** An incomplete last row makes no difference to anything. */
  lemma IncompleteRowIsDropped(a: Arithmetic, kind: Kind, cut: nat, s: State, f: Frame, rate: nat)
    requires Handleable(f) && f.channels > 0
    ensures WellFormed(Complete(f)) && Handle(a, kind, cut, s, f, rate) == Handle(a, kind, cut, s, Complete(f), rate)
  {
    hide Channel, Filtered, After, Interleaved, Complete, Ready, WellFormed, Rows;
    CompleteChannels(f);
    CompleteIsEmpty(f);
    var ready := Ready(a, kind, cut, s, rate, f.channels);
    assert Columns(a, kind, ready, f) == Columns(a, kind, ready, Complete(f));
    assert Memories(a, kind, ready, f) == Memories(a, kind, ready, Complete(f));
  }

  lemma CompleteIsEmpty(f: Frame)
    requires Handleable(f) && f.channels > 0
    ensures Complete(f).channels == f.channels && (f.samples == [] ==> Complete(f) == f)
    ensures Complete(f).samples == [] <==> f.samples == []
  {
    CompleteRows(|f.samples|, f.channels);
    ProductMonotone(1, Rows(f), f.channels);
  }

  /** Filtering two frames one after the other is filtering them joined: same samples, same state. */
  lemma FramesSplit(a: Arithmetic, kind: Kind, cut: nat, s: State, f: Frame, g: Frame, rate: nat)
    requires WellFormed(f) && WellFormed(g) && f.channels == g.channels
    ensures WellFormed(Joined(f, g))
    ensures var first := Handle(a, kind, cut, s, f, rate);
            var second := Handle(a, kind, cut, first.state, g, rate);
            Handle(a, kind, cut, s, Joined(f, g), rate) == Handled(second.state, Joined(first.frame, second.frame))
  {
    JoinedChannels(f, g);
    HandledIsWellFormed(a, kind, cut, s, f, rate);
    var first := Handle(a, kind, cut, s, f, rate);
    if f.samples == [] {
      assert Joined(f, g) == g;
      HandledIsWellFormed(a, kind, cut, s, g, rate);
      assert Joined(f, Handle(a, kind, cut, s, g, rate).frame) == Handle(a, kind, cut, s, g, rate).frame;
    } else if g.samples == [] {
      assert Joined(f, g) == f;
      assert Joined(first.frame, g) == first.frame;
    } else {
      NonEmptyFramesSplit(a, kind, cut, s, f, g, rate);
    }
  }

  lemma NonEmptyFramesSplit(a: Arithmetic, kind: Kind, cut: nat, s: State, f: Frame, g: Frame, rate: nat)
    requires WellFormed(f) && WellFormed(g) && f.channels == g.channels && f.samples != [] && g.samples != []
    ensures WellFormed(Joined(f, g))
    ensures var first := Handle(a, kind, cut, s, f, rate);
            var second := Handle(a, kind, cut, first.state, g, rate);
            Handle(a, kind, cut, s, Joined(f, g), rate) == Handled(second.state, Joined(first.frame, second.frame))
  {
    hide Filtered, After, Channel, Interleaved, Configured;
    var c := f.channels;
    var ready := Ready(a, kind, cut, s, rate, c);
    var first := Handle(a, kind, cut, s, f, rate);
    var second := Handle(a, kind, cut, first.state, g, rate);
    ReadyIsStable(a, kind, cut, first.state, rate, c);
    JoinedChannels(f, g);
    var whole := Handle(a, kind, cut, s, Joined(f, g), rate);
    InterleavedChannels(Columns(a, kind, ready, f), Rows(f));
    InterleavedChannels(Columns(a, kind, first.state, g), Rows(g));
    InterleavedChannels(Columns(a, kind, ready, Joined(f, g)), Rows(Joined(f, g)));
    JoinedChannels(first.frame, second.frame);
    forall ch | 0 <= ch < c
      ensures Channel(whole.frame, ch) == Channel(Joined(first.frame, second.frame), ch)
      ensures whole.state.memories[ch] == second.state.memories[ch]
    {
      ChannelSplits(a, kind, ready.alpha, ready.memories[ch], Channel(f, ch), Channel(g, ch));
    }
    assert whole.state.memories == second.state.memories;
    SameChannels(whole.frame, Joined(first.frame, second.frame));
  }

  lemma ReadyIsStable(a: Arithmetic, kind: Kind, cut: nat, s: State, rate: nat, channels: nat)
    requires s.samplerate == Some(rate) && s.channels == Some(channels) && |s.memories| == channels
    ensures Ready(a, kind, cut, s, rate, channels) == s
  {
  }

  // ---- Any sequence of frames -----------------------------------------------------------------

  predicate AllFrames(frames: seq<Frame>, channels: nat) {
    forall k :: 0 <= k < |frames| ==> WellFormed(frames[k]) && frames[k].channels == channels
  }

  function Concatenated(frames: seq<Frame>, channels: nat): (f: Frame)
    ensures f.channels == channels
  {
    if frames == [] then Frame([], channels)
    else Joined(Concatenated(frames[..|frames| - 1], channels), frames[|frames| - 1])
  }

  lemma {:induction false} ConcatenatedIsWellFormed(frames: seq<Frame>, channels: nat)
    requires channels > 0 && AllFrames(frames, channels)
    ensures WellFormed(Concatenated(frames, channels)) && Concatenated(frames, channels).channels == channels
  {
    if frames != [] {
      ConcatenatedIsWellFormed(frames[..|frames| - 1], channels);
      JoinedChannels(Concatenated(frames[..|frames| - 1], channels), frames[|frames| - 1]);
    }
  }

  /** The stream: each frame filtered with the state the one before left, outputs joined. */
  function HandleAll(a: Arithmetic, kind: Kind, cut: nat, s: State, frames: seq<Frame>, rate: nat,
                     channels: nat): Handled
    requires AllFrames(frames, channels)
  {
    if frames == [] then Handled(s, Frame([], channels))
    else
      var before := HandleAll(a, kind, cut, s, frames[..|frames| - 1], rate, channels);
      var last := Handle(a, kind, cut, before.state, frames[|frames| - 1], rate);
      Handled(last.state, Joined(before.frame, last.frame))
  }

  /** However a signal is cut into frames, filtering them in turn gives, sample for sample, what
      filtering the whole signal at once gives, from any state the filter may be in. */
  lemma {:induction false} StreamingIsWhole(a: Arithmetic, kind: Kind, cut: nat, s: State, frames: seq<Frame>,
                                            rate: nat, channels: nat)
    requires channels > 0 && AllFrames(frames, channels)
    ensures WellFormed(Concatenated(frames, channels))
    ensures HandleAll(a, kind, cut, s, frames, rate, channels)
            == Handle(a, kind, cut, s, Concatenated(frames, channels), rate)
  {
    hide Handle;
    ConcatenatedIsWellFormed(frames, channels);
    if frames == [] {
      EmptyFrame(a, kind, cut, s, channels, rate);
    } else {
      var n := |frames| - 1;
      StreamingIsWhole(a, kind, cut, s, frames[..n], rate, channels);
      ConcatenatedIsWellFormed(frames[..n], channels);
      FramesSplit(a, kind, cut, s, Concatenated(frames[..n], channels), frames[n], rate);
    }
  }

  lemma EmptyFrame(a: Arithmetic, kind: Kind, cut: nat, s: State, channels: nat, rate: nat)
    requires channels > 0
    ensures Handle(a, kind, cut, s, Frame([], channels), rate) == Handled(s, Frame([], channels))
  {
  }

  // ---- Band-pass ------------------------------------------------------------------------------

  datatype BandHandled = BandHandled(high: State, low: State, frame: Frame)

  function HandleBand(a: Arithmetic, lowCut: nat, highCut: nat, high: State, low: State, f: Frame,
                      rate: nat): BandHandled
    requires Handleable(f)
  {
    if f.samples == [] then BandHandled(high, low, f)
    else
      HandledIsWellFormed(a, HighPassKind, lowCut, high, f, rate);
      var first := Handle(a, HighPassKind, lowCut, high, f, rate);
      var second := Handle(a, LowPassKind, highCut, low, first.frame, rate);
      BandHandled(first.state, second.state, second.frame)
  }

  function HandleBandAll(a: Arithmetic, lowCut: nat, highCut: nat, high: State, low: State, frames: seq<Frame>,
                         rate: nat, channels: nat): BandHandled
    requires AllFrames(frames, channels)
  {
    if frames == [] then BandHandled(high, low, Frame([], channels))
    else
      var before := HandleBandAll(a, lowCut, highCut, high, low, frames[..|frames| - 1], rate, channels);
      var last := HandleBand(a, lowCut, highCut, before.high, before.low, frames[|frames| - 1], rate);
      BandHandled(last.high, last.low, Joined(before.frame, last.frame))
  }

  /** The cascade, with the empty case of the two filters standing in for its own. */
  lemma BandIsCascade(a: Arithmetic, lowCut: nat, highCut: nat, high: State, low: State, f: Frame, rate: nat)
    requires Handleable(f)
    ensures var first := Handle(a, HighPassKind, lowCut, high, f, rate);
            && Handleable(first.frame) && first.frame.channels == f.channels
            && (f.channels > 0 ==> WellFormed(first.frame))
            && var second := Handle(a, LowPassKind, highCut, low, first.frame, rate);
               HandleBand(a, lowCut, highCut, high, low, f, rate)
                 == BandHandled(first.state, second.state, second.frame)
  {
    HandledIsWellFormed(a, HighPassKind, lowCut, high, f, rate);
  }

  lemma BandSplits(a: Arithmetic, lowCut: nat, highCut: nat, high: State, low: State, f: Frame, g: Frame, rate: nat)
    requires WellFormed(f) && WellFormed(g) && f.channels == g.channels
    ensures WellFormed(Joined(f, g))
    ensures var first := HandleBand(a, lowCut, highCut, high, low, f, rate);
            var second := HandleBand(a, lowCut, highCut, first.high, first.low, g, rate);
            HandleBand(a, lowCut, highCut, high, low, Joined(f, g), rate)
            == BandHandled(second.high, second.low, Joined(first.frame, second.frame))
  {
    hide Handle, HandleBand, WellFormed;
    FramesSplit(a, HighPassKind, lowCut, high, f, g, rate);
    BandIsCascade(a, lowCut, highCut, high, low, f, rate);
    BandIsCascade(a, lowCut, highCut, high, low, Joined(f, g), rate);
    var first := HandleBand(a, lowCut, highCut, high, low, f, rate);
    BandIsCascade(a, lowCut, highCut, first.high, first.low, g, rate);
    FramesSplit(a, LowPassKind, highCut, low, Handle(a, HighPassKind, lowCut, high, f, rate).frame,
                Handle(a, HighPassKind, lowCut, first.high, g, rate).frame, rate);
  }

  /** The same for the band-pass: any cutting of the signal gives the same output. */
  lemma {:induction false} BandStreamingIsWhole(a: Arithmetic, lowCut: nat, highCut: nat, high: State, low: State,
                                                frames: seq<Frame>, rate: nat, channels: nat)
    requires channels > 0 && AllFrames(frames, channels)
    ensures WellFormed(Concatenated(frames, channels))
    ensures HandleBandAll(a, lowCut, highCut, high, low, frames, rate, channels)
            == HandleBand(a, lowCut, highCut, high, low, Concatenated(frames, channels), rate)
  {
    hide Handle;
    ConcatenatedIsWellFormed(frames, channels);
    if frames != [] {
      var n := |frames| - 1;
      BandStreamingIsWhole(a, lowCut, highCut, high, low, frames[..n], rate, channels);
      ConcatenatedIsWellFormed(frames[..n], channels);
      BandSplits(a, lowCut, highCut, high, low, Concatenated(frames[..n], channels), frames[n], rate);
    }
  }
}

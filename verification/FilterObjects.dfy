/** The filter objects (lxst/src/filters.rs): nested loops over channels and rows that fill an
    interleaved buffer, proved against the functions of module `Filters`. */
module FilterObjects {
  import opened Octets
  import opened Filters

  /** The first row of a frame, from what the frame before left. */
  lemma FirstRow(a: Arithmetic, kind: Kind, alpha: Sample, m: Memory, xs: seq<Sample>)
    requires xs != []
    ensures Filtered(a, kind, alpha, m, xs)[0] == Advance(a, kind, alpha, m, xs[0]).y
  {
    FilteredAt(a, kind, alpha, m, xs, 0);
    assert xs[..1][..0] == [] && After(a, kind, alpha, m, []) == m;
  }

  /** Any later row, from the output and the input of the row before it in the same frame: the two
      ways of computing a row agree, so a frame boundary makes no difference. */
  lemma LaterRow(a: Arithmetic, kind: Kind, alpha: Sample, m: Memory, xs: seq<Sample>, i: nat)
    requires 0 < i < |xs|
    ensures var previous :=
            Memory(Filtered(a, kind, alpha, m, xs)[i - 1], if kind.HighPassKind? then xs[i - 1] else m.x);
            After(a, kind, alpha, m, xs[..i]) == previous
            && Filtered(a, kind, alpha, m, xs)[i] == Advance(a, kind, alpha, previous, xs[i]).y
  {
    FilteredAt(a, kind, alpha, m, xs, i - 1);
    FilteredAt(a, kind, alpha, m, xs, i);
    assert xs[..i + 1][..i] == xs[..i];
    LastInput(a, kind, alpha, m, xs[..i]);
  }

  lemma {:induction false} LastInput(a: Arithmetic, kind: Kind, alpha: Sample, m: Memory, xs: seq<Sample>)
    requires xs != []
    ensures After(a, kind, alpha, m, xs).x == if kind.HighPassKind? then xs[|xs| - 1] else m.x
  {
    if |xs| > 1 {
      LastInput(a, kind, alpha, m, xs[..|xs| - 1]);
    }
  }

  lemma OtherIndex(i: nat, ch: nat, j: nat, d: nat, channels: nat)
    requires ch < channels && d < channels && (i != j || ch != d)
    ensures Index(i, ch, channels) != Index(j, d, channels)
  {
    IndexSplits(i, ch, channels);
    IndexSplits(j, d, channels);
  }

  /** `alpha * (state + diff)` of the high-pass. */
  function HighRow(a: Arithmetic, alpha: Sample, y: Sample, diff: Sample): Sample {
    a.times(alpha, a.plus(y, diff))
  }

  function Difference(a: Arithmetic, x: Sample, before: Sample): Sample {
    a.minus(x, before)
  }

  /** `alpha * x + (1 - alpha) * state` of the low-pass. */
  function LowRow(a: Arithmetic, alpha: Sample, x: Sample, y: Sample): Sample {
    a.plus(a.times(alpha, x), a.times(a.minus(a.one, alpha), y))
  }

  /** The rows of channel `ch` up to row `i` hold the filtered samples, and no other channel differs
      from `start`. */
  ghost predicate Filled(samples: seq<Sample>, start: seq<Sample>, ys: seq<Sample>, i: nat, ch: nat, channels: nat)
    requires ch < channels && i <= |ys|
  {
    && |samples| == |start|
    && (forall j :: 0 <= j < i && Index(j, ch, channels) < |samples| ==> samples[Index(j, ch, channels)] == ys[j])
    && (forall k :: 0 <= k < |samples| && k % channels != ch ==> samples[k] == start[k])
  }

  lemma FilledOneMore(samples: seq<Sample>, start: seq<Sample>, ys: seq<Sample>, i: nat, ch: nat, channels: nat)
    requires ch < channels && i < |ys| && Filled(samples, start, ys, i, ch, channels)
    requires Index(i, ch, channels) < |samples|
    ensures Filled(samples[Index(i, ch, channels) := ys[i]], start, ys, i + 1, ch, channels)
  {
    IndexSplits(i, ch, channels);
    forall j | 0 <= j < i ensures Index(j, ch, channels) != Index(i, ch, channels) {
      OtherIndex(j, ch, i, ch, channels);
    }
  }

  /** The inner loop of the high-pass: the first row crosses the frame boundary with the state left by
      the last frame; every other row reads back the row before it. */
  method HighPassChannel(a: Arithmetic, alpha: Sample, m: Memory, f: Frame, ch: nat, buffer: array<Sample>)
    returns (last: Memory)
    requires ch < f.channels <= |f.samples| && buffer.Length == Rows(f) * f.channels
    modifies buffer
    ensures Filled(buffer[..], old(buffer[..]), Filtered(a, HighPassKind, alpha, m, Channel(f, ch)), Rows(f), ch,
            f.channels)
    ensures last == After(a, HighPassKind, alpha, m, Channel(f, ch))
  {
    hide Filtered, After, Channel, Index, Rows;
    var rows, c := Rows(f), f.channels;
    ghost var xs := Channel(f, ch);
    ghost var ys := Filtered(a, HighPassKind, alpha, m, xs);
    InRange(f, ch, 0);
    FirstRow(a, HighPassKind, alpha, m, xs);
    var x0 := f.samples[Index(0, ch, c)];
    var inputDiff := Difference(a, x0, m.x);
    FilledOneMore(buffer[..], old(buffer[..]), ys, 0, ch, c);
    buffer[Index(0, ch, c)] := HighRow(a, alpha, m.y, inputDiff);
    for i := 1 to rows
      invariant Filled(buffer[..], old(buffer[..]), ys, i, ch, c)
    {
      InRange(f, ch, i - 1);
      InRange(f, ch, i);
      LaterRow(a, HighPassKind, alpha, m, xs, i);
      var diff := Difference(a, f.samples[Index(i, ch, c)], f.samples[Index(i - 1, ch, c)]);
      FilledOneMore(buffer[..], old(buffer[..]), ys, i, ch, c);
      buffer[Index(i, ch, c)] := HighRow(a, alpha, buffer[Index(i - 1, ch, c)], diff);
    }
    InRange(f, ch, rows - 1);
    LastMemory(a, HighPassKind, alpha, m, xs);
    last := Memory(buffer[Index(rows - 1, ch, c)], f.samples[Index(rows - 1, ch, c)]);
  }

  /** The inner loop of the low-pass. */
  method LowPassChannel(a: Arithmetic, alpha: Sample, m: Memory, f: Frame, ch: nat, buffer: array<Sample>)
    returns (last: Memory)
    requires ch < f.channels <= |f.samples| && buffer.Length == Rows(f) * f.channels
    modifies buffer
    ensures Filled(buffer[..], old(buffer[..]), Filtered(a, LowPassKind, alpha, m, Channel(f, ch)), Rows(f), ch,
            f.channels)
    ensures last == After(a, LowPassKind, alpha, m, Channel(f, ch))
  {
    hide Filtered, After, Channel, Index, Rows;
    var rows, c := Rows(f), f.channels;
    ghost var xs := Channel(f, ch);
    ghost var ys := Filtered(a, LowPassKind, alpha, m, xs);
    InRange(f, ch, 0);
    FirstRow(a, LowPassKind, alpha, m, xs);
    FilledOneMore(buffer[..], old(buffer[..]), ys, 0, ch, c);
    buffer[Index(0, ch, c)] := LowRow(a, alpha, f.samples[Index(0, ch, c)], m.y);
    for i := 1 to rows
      invariant Filled(buffer[..], old(buffer[..]), ys, i, ch, c)
    {
      InRange(f, ch, i - 1);
      InRange(f, ch, i);
      LaterRow(a, LowPassKind, alpha, m, xs, i);
      FilledOneMore(buffer[..], old(buffer[..]), ys, i, ch, c);
      buffer[Index(i, ch, c)] := LowRow(a, alpha, f.samples[Index(i, ch, c)], buffer[Index(i - 1, ch, c)]);
    }
    InRange(f, ch, rows - 1);
    LastMemory(a, LowPassKind, alpha, m, xs);
    last := Memory(buffer[Index(rows - 1, ch, c)], m.x);
  }

  lemma InRange(f: Frame, ch: nat, i: nat)
    requires ch < f.channels <= |f.samples|
    ensures Rows(f) > 0
    ensures i < Rows(f) ==>
              && Index(i, ch, f.channels) < Rows(f) * f.channels <= |f.samples|
              && Channel(f, ch)[i] == f.samples[Index(i, ch, f.channels)]
  {
    CompleteRows(|f.samples|, f.channels);
    if i < Rows(f) {
      ChannelAt(f, ch, i);
      IndexInRange(i, ch, Rows(f), f.channels);
    }
  }

  lemma LastMemory(a: Arithmetic, kind: Kind, alpha: Sample, m: Memory, xs: seq<Sample>)
    requires xs != []
    ensures After(a, kind, alpha, m, xs) ==
            Memory(Filtered(a, kind, alpha, m, xs)[|xs| - 1], if kind.HighPassKind? then xs[|xs| - 1] else m.x)
  {
    FilteredAt(a, kind, alpha, m, xs, |xs| - 1);
    assert xs[..|xs|] == xs;
    LastInput(a, kind, alpha, m, xs);
  }

  /** The first `ch` channels of the buffer are the filtered columns. */
  ghost predicate Done(a: Arithmetic, kind: Kind, ready: State, f: Frame, samples: seq<Sample>, ch: nat)
    requires |ready.memories| == f.channels > 0 && ch <= f.channels
  {
    forall d, i :: 0 <= d < ch && 0 <= i < Rows(f) && Index(i, d, f.channels) < |samples| ==>
      samples[Index(i, d, f.channels)] == Columns(a, kind, ready, f)[d][i]
  }

  lemma NothingDone(a: Arithmetic, kind: Kind, ready: State, f: Frame, samples: seq<Sample>)
    requires |ready.memories| == f.channels > 0
    ensures Done(a, kind, ready, f, samples, 0)
  {
  }

  lemma OneMoreDone(a: Arithmetic, kind: Kind, ready: State, f: Frame, before: seq<Sample>, samples: seq<Sample>,
                    ch: nat)
    requires |ready.memories| == f.channels && ch < f.channels
    requires Done(a, kind, ready, f, before, ch)
    requires var ys := Filtered(a, kind, ready.alpha, ready.memories[ch], Channel(f, ch));
             |ys| == Rows(f) && Filled(samples, before, ys, Rows(f), ch, f.channels)
    ensures Done(a, kind, ready, f, samples, ch + 1)
  {
    hide Filtered, Channel, Index;
    forall d, i | 0 <= d < ch && 0 <= i < Rows(f) && Index(i, d, f.channels) < |samples|
      ensures samples[Index(i, d, f.channels)] == before[Index(i, d, f.channels)]
    {
      IndexSplits(i, d, f.channels);
    }
  }

  /** A buffer whose channels are the filtered columns is the interleaved output. */
  lemma BufferIsOutput(a: Arithmetic, kind: Kind, ready: State, f: Frame, samples: seq<Sample>)
    requires |ready.memories| == f.channels && 0 < f.channels <= |f.samples| && |samples| == Rows(f) * f.channels
    requires Done(a, kind, ready, f, samples, f.channels)
    ensures Frame(samples, f.channels) == Interleaved(Columns(a, kind, ready, f), Rows(f))
  {
    hide Columns;
    var out := Frame(samples, f.channels);
    Quotient(Rows(f) * f.channels, f.channels, Rows(f), 0);
    InterleavedChannels(Columns(a, kind, ready, f), Rows(f));
    forall ch | 0 <= ch < f.channels ensures Channel(out, ch) == Columns(a, kind, ready, f)[ch] {
      forall i | 0 <= i < Rows(f) ensures Channel(out, ch)[i] == Columns(a, kind, ready, f)[ch][i] {
        ChannelAt(out, ch, i);
      }
    }
    SameChannels(out, Interleaved(Columns(a, kind, ready, f), Rows(f)));
  }

  /** All channels of a frame. The loop over channels is the same for both filters. */
  method FilterFrame(a: Arithmetic, kind: Kind, ready: State, f: Frame) returns (out: Frame, memories: seq<Memory>)
    requires |ready.memories| == f.channels && 0 < f.channels <= |f.samples|
    ensures out == Interleaved(Columns(a, kind, ready, f), Rows(f))
    ensures memories == Memories(a, kind, ready, f)
  {
    hide Filtered, After, Channel, Interleaved, Index, Done, Filled, Columns;
    var c := f.channels;
    var buffer := new Sample[Rows(f) * c](_ => a.zero);
    NothingDone(a, kind, ready, f, buffer[..]);
    memories := ready.memories;
    for ch := 0 to c
      invariant |memories| == c
      invariant forall d :: 0 <= d < ch ==> memories[d] == Memories(a, kind, ready, f)[d]
      invariant forall d :: ch <= d < c ==> memories[d] == ready.memories[d]
      invariant Done(a, kind, ready, f, buffer[..], ch)
    {
      ghost var before := buffer[..];
      var last;
      if kind.HighPassKind? {
        last := HighPassChannel(a, ready.alpha, memories[ch], f, ch, buffer);
      } else {
        last := LowPassChannel(a, ready.alpha, memories[ch], f, ch, buffer);
      }
      memories := memories[ch := last];
      OneMoreDone(a, kind, ready, f, before, buffer[..], ch);
    }
    BufferIsOutput(a, kind, ready, f, buffer[..]);
    out := Frame(buffer[..], c);
  }

  class HighPass {
    const cut: nat
    var samplerate: Option<nat>
    var channels: Option<nat>
    var filterStates: seq<Sample>
    var lastInputs: seq<Sample>
    var alpha: Sample

    ghost predicate Valid()
      reads this
    {
      |filterStates| == |lastInputs|
    }

    ghost function Value(): State
      requires Valid()
      reads this
    {
      State(samplerate, channels, Zip(filterStates, lastInputs), alpha)
    }

    constructor (a: Arithmetic, cut: nat)
      ensures Valid() && this.cut == cut && Value() == State(None, None, [], a.zero)
    {
      this.cut := cut;
      samplerate, channels, filterStates, lastInputs, alpha := None, None, [], [], a.zero;
    }

    method HandleFrame(a: Arithmetic, f: Frame, rate: nat) returns (out: Frame)
      requires Valid() && Handleable(f)
      modifies this
      ensures Valid()
      ensures var r := Handle(a, HighPassKind, cut, old(Value()), f, rate); Value() == r.state && out == r.frame
    {
      hide Interleaved, Columns, Memories, Rows;
      if f.samples == [] {
        return f;
      }
      ghost var s := Value();
      if samplerate != Some(rate) {
        samplerate := Some(rate);
        alpha := Alpha(a, HighPassKind, cut, rate);
      }
      if channels != Some(f.channels) || |filterStates| != f.channels {
        channels := Some(f.channels);
        filterStates := seq(f.channels, _ => a.zero);
        lastInputs := seq(f.channels, _ => a.zero);
      }
      var ready := State(samplerate, channels, Zip(filterStates, lastInputs), alpha);
      assert ready.memories == Ready(a, HighPassKind, cut, s, rate, f.channels).memories;
      if f.channels == 0 {
        return Frame([], 0);
      }
      var memories;
      out, memories := FilterFrame(a, HighPassKind, ready, f);
      filterStates := seq(|memories|, ch requires 0 <= ch < |memories| => memories[ch].y);
      lastInputs := seq(|memories|, ch requires 0 <= ch < |memories| => memories[ch].x);
      assert Zip(filterStates, lastInputs) == memories;
    }
  }

  function Zip(ys: seq<Sample>, xs: seq<Sample>): (ms: seq<Memory>)
    requires |ys| == |xs|
    ensures |ms| == |ys| && forall ch :: 0 <= ch < |ms| ==> ms[ch] == Memory(ys[ch], xs[ch])
  {
    seq(|ys|, ch requires 0 <= ch < |ys| => Memory(ys[ch], xs[ch]))
  }

  class LowPass {
    const cut: nat
    /** The silent sample, kept where a high-pass would keep its last input. */
    const rest: Sample
    var samplerate: Option<nat>
    var channels: Option<nat>
    var filterStates: seq<Sample>
    var alpha: Sample

    ghost function Value(): State
      reads this
    {
      State(samplerate, channels, Pad(filterStates, rest), alpha)
    }

    constructor (a: Arithmetic, cut: nat)
      ensures this.cut == cut && rest == a.zero && Value() == State(None, None, [], a.zero)
    {
      this.cut, rest := cut, a.zero;
      samplerate, channels, filterStates, alpha := None, None, [], a.zero;
    }

    method HandleFrame(a: Arithmetic, f: Frame, rate: nat) returns (out: Frame)
      requires Handleable(f) && rest == a.zero
      modifies this
      ensures var r := Handle(a, LowPassKind, cut, old(Value()), f, rate); Value() == r.state && out == r.frame
    {
      hide Interleaved, Columns, Memories, Rows;
      if f.samples == [] {
        return f;
      }
      ghost var s := Value();
      if samplerate != Some(rate) {
        samplerate := Some(rate);
        alpha := Alpha(a, LowPassKind, cut, rate);
      }
      if channels != Some(f.channels) || |filterStates| != f.channels {
        channels := Some(f.channels);
        filterStates := seq(f.channels, _ => a.zero);
      }
      var ready := State(samplerate, channels, Pad(filterStates, rest), alpha);
      assert ready.memories == Ready(a, LowPassKind, cut, s, rate, f.channels).memories;
      if f.channels == 0 {
        return Frame([], 0);
      }
      var memories;
      out, memories := FilterFrame(a, LowPassKind, ready, f);
      LowPassKeepsInputs(a, ready, f, rest);
      filterStates := seq(|memories|, ch requires 0 <= ch < |memories| => memories[ch].y);
      assert Pad(filterStates, rest) == memories;
    }
  }

  function Pad(ys: seq<Sample>, rest: Sample): (ms: seq<Memory>)
    ensures |ms| == |ys| && forall ch :: 0 <= ch < |ms| ==> ms[ch] == Memory(ys[ch], rest)
  {
    seq(|ys|, ch requires 0 <= ch < |ys| => Memory(ys[ch], rest))
  }

  lemma LowPassKeepsInputs(a: Arithmetic, ready: State, f: Frame, rest: Sample)
    requires |ready.memories| == f.channels > 0
    requires forall ch :: 0 <= ch < f.channels ==> ready.memories[ch].x == rest
    ensures forall ch :: 0 <= ch < f.channels ==> Memories(a, LowPassKind, ready, f)[ch].x == rest
  {
    forall ch | 0 <= ch < f.channels ensures Memories(a, LowPassKind, ready, f)[ch].x == rest {
      LowPassKeepsInput(a, ready.alpha, ready.memories[ch], Channel(f, ch));
    }
  }

  lemma {:induction false} LowPassKeepsInput(a: Arithmetic, alpha: Sample, m: Memory, xs: seq<Sample>)
    ensures After(a, LowPassKind, alpha, m, xs).x == m.x
  {
    if xs != [] {
      LowPassKeepsInput(a, alpha, m, xs[..|xs| - 1]);
    }
  }

  class BandPass {
    const highPass: HighPass
    const lowPass: LowPass

    ghost predicate Valid()
      reads this, highPass, lowPass
    {
      highPass.Valid()
    }

    constructor (a: Arithmetic, lowCut: nat, highCut: nat)
      ensures Valid() && fresh(highPass) && fresh(lowPass)
      ensures highPass.cut == lowCut && lowPass.cut == highCut && lowPass.rest == a.zero
      ensures highPass.Value() == lowPass.Value() == State(None, None, [], a.zero)
    {
      highPass := new HighPass(a, lowCut);
      lowPass := new LowPass(a, highCut);
    }

    method HandleFrame(a: Arithmetic, f: Frame, rate: nat) returns (out: Frame)
      requires Valid() && Handleable(f) && lowPass.rest == a.zero
      modifies highPass, lowPass
      ensures Valid()
      ensures var r := HandleBand(a, highPass.cut, lowPass.cut, old(highPass.Value()), old(lowPass.Value()), f, rate);
              highPass.Value() == r.high && lowPass.Value() == r.low && out == r.frame
    {
      hide Handle;
      if f.samples == [] {
        return f;
      }
      BandIsCascade(a, highPass.cut, lowPass.cut, highPass.Value(), lowPass.Value(), f, rate);
      out := highPass.HandleFrame(a, f, rate);
      out := lowPass.HandleFrame(a, out, rate);
    }
  }
}

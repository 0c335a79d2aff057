/** What the filters do to a signal, if arithmetic is exact (lxst/src/filters.rs). */
module FilterLaws {
  import opened Octets
  import opened Filters

  /** Samples stand for numbers, and the operations compute without rounding. */
  ghost predicate Exact(a: Arithmetic, value: Sample -> real) {
    && value(a.zero) == 0.0 && value(a.one) == 1.0
    && (forall x, y :: value(a.plus(x, y)) == value(x) + value(y))
    && (forall x, y :: value(a.minus(x, y)) == value(x) - value(y))
    && (forall x, y :: value(a.times(x, y)) == value(x) * value(y))
  }

  /** The coefficients of the two filters at the same cut and rate: `rc / (rc + dt)` and
      `dt / (rc + dt)`. */
  ghost predicate Complementary(a: Arithmetic, value: Sample -> real, cut: nat, rate: nat) {
    value(a.highAlpha(cut, rate)) + value(a.lowAlpha(cut, rate)) == 1.0
  }

  // ---- Together they pass everything ----------------------------------------------------------

  lemma AdvanceSplits(high: real, y: real, low: real, x: real, previous: real)
    requires y + low == previous
    ensures high * (y + (x - previous)) + ((1.0 - high) * x + (1.0 - (1.0 - high)) * low) == x
  {
    assert y + (x - previous) == x - low;
    assert high * (x - low) == high * x - high * low;
    assert (1.0 - high) * x == x - high * x;
  }

  /** Where the memories of the two add up to the last input, they do so after any more input. */
  lemma {:induction false} MemoriesAddUp(a: Arithmetic, value: Sample -> real, high: Sample, low: Sample, h: Memory,
                                         l: Memory, xs: seq<Sample>)
    requires Exact(a, value) && value(high) + value(low) == 1.0 && value(h.y) + value(l.y) == value(h.x)
    ensures var p, q := After(a, HighPassKind, high, h, xs), After(a, LowPassKind, low, l, xs);
            value(p.y) + value(q.y) == value(p.x) && (xs != [] ==> p.x == xs[|xs| - 1])
  {
    if xs != [] {
      var front, x := xs[..|xs| - 1], xs[|xs| - 1];
      MemoriesAddUp(a, value, high, low, h, l, front);
      var p, q := After(a, HighPassKind, high, h, front), After(a, LowPassKind, low, l, front);
      AdvanceSplits(value(high), value(p.y), value(q.y), value(x), value(p.x));
    }
  }

  lemma ChannelAddsUp(a: Arithmetic, value: Sample -> real, high: Sample, low: Sample, h: Memory, l: Memory,
                      xs: seq<Sample>, i: nat)
    requires Exact(a, value) && value(high) + value(low) == 1.0 && value(h.y) + value(l.y) == value(h.x) && i < |xs|
    ensures value(Filtered(a, HighPassKind, high, h, xs)[i]) + value(Filtered(a, LowPassKind, low, l, xs)[i])
            == value(xs[i])
  {
    hide Exact;
    FilteredAt(a, HighPassKind, high, h, xs, i);
    FilteredAt(a, LowPassKind, low, l, xs, i);
    MemoriesAddUp(a, value, high, low, h, l, xs[..i + 1]);
  }

  /** A filter that has not seen a frame yet. */
  predicate Unused(s: State) {
    s.samplerate.None? && s.channels.None?
  }

  /** However a signal is cut into frames, what an unused high-pass and an unused low-pass of the same
      cut make of it adds up to the signal, sample for sample. */
  lemma FiltersAddUp(a: Arithmetic, value: Sample -> real, cut: nat, high: State, low: State, frames: seq<Frame>,
                     rate: nat, channels: nat, ch: nat, i: nat)
    requires Exact(a, value) && Complementary(a, value, cut, rate) && Unused(high) && Unused(low)
    requires channels > 0 && AllFrames(frames, channels) && ch < channels && i < Rows(Concatenated(frames, channels))
    ensures var f := Concatenated(frames, channels);
            var hp := HandleAll(a, HighPassKind, cut, high, frames, rate, channels).frame;
            var lp := HandleAll(a, LowPassKind, cut, low, frames, rate, channels).frame;
            && f.channels == hp.channels == lp.channels == channels && Rows(hp) == Rows(lp) == Rows(f)
            && value(Channel(hp, ch)[i]) + value(Channel(lp, ch)[i]) == value(Channel(f, ch)[i])
  {
    hide Exact, Channel, Filtered, Interleaved, HandleAll, Rows, AllFrames, Concatenated;
    StreamingIsWhole(a, HighPassKind, cut, high, frames, rate, channels);
    StreamingIsWhole(a, LowPassKind, cut, low, frames, rate, channels);
    ConcatenatedIsWellFormed(frames, channels);
    var f := Concatenated(frames, channels);
    SomeRows(f);
    HandledChannel(a, HighPassKind, cut, high, f, rate, ch);
    HandledChannel(a, LowPassKind, cut, low, f, rate, ch);
    ZeroAddsUp(a, value);
    ChannelAddsUp(a, value, a.highAlpha(cut, rate), a.lowAlpha(cut, rate), Memory(a.zero, a.zero),
                  Memory(a.zero, a.zero), Channel(f, ch), i);
  }

  lemma ZeroAddsUp(a: Arithmetic, value: Sample -> real)
    requires Exact(a, value)
    ensures value(a.zero) + value(a.zero) == value(a.zero)
  {
  }

  lemma SomeRows(f: Frame)
    requires f.channels > 0 && Rows(f) > 0
    ensures f.samples != []
  {
  }

  /** The coefficient belongs to the rate the filter last saw. */
  predicate Tuned(a: Arithmetic, kind: Kind, cut: nat, s: State) {
    s.samplerate.Some? ==> s.alpha == Alpha(a, kind, cut, s.samplerate.value)
  }

  /** What a channel starts a frame with: what it carried over, or nothing after a change of the number
      of channels. */
  function Carried(a: Arithmetic, s: State, channels: nat, ch: nat): Memory {
    if s.channels == Some(channels) && |s.memories| == channels && ch < channels then s.memories[ch]
    else Memory(a.zero, a.zero)
  }

  /** Each channel of a frame is that channel filtered with the coefficient of the frame's own rate,
      from what it carried over, and the filter carries on from its end. */
  lemma HandledChannel(a: Arithmetic, kind: Kind, cut: nat, s: State, f: Frame, rate: nat, ch: nat)
    requires WellFormed(f) && f.samples != [] && ch < f.channels && Tuned(a, kind, cut, s)
    ensures var h := Handle(a, kind, cut, s, f, rate);
            var alpha, m := Alpha(a, kind, cut, rate), Carried(a, s, f.channels, ch);
            && h.frame.channels == f.channels && Rows(h.frame) == Rows(f)
            && Channel(h.frame, ch) == Filtered(a, kind, alpha, m, Channel(f, ch))
            && Tuned(a, kind, cut, h.state) && h.state.samplerate == Some(rate)
            && Carried(a, h.state, f.channels, ch) == After(a, kind, alpha, m, Channel(f, ch))
  {
    hide Channel, Filtered, After, Interleaved, Alpha;
    var ready := Ready(a, kind, cut, s, rate, f.channels);
    InterleavedChannels(Columns(a, kind, ready, f), Rows(f));
  }

  // ---- Steady input ---------------------------------------------------------------------------

  function Power(base: real, n: nat): real {
    if n == 0 then 1.0 else Power(base, n - 1) * base
  }

  function Steady(x: Sample, n: nat): seq<Sample> {
    seq(n, _ => x)
  }

  /** A steady input dies away through the high-pass, by the coefficient with every sample. */
  lemma {:induction false} HighPassDecays(a: Arithmetic, value: Sample -> real, alpha: Sample, m: Memory, n: nat)
    requires Exact(a, value)
    ensures value(After(a, HighPassKind, alpha, m, Steady(m.x, n)).y) == Power(value(alpha), n) * value(m.y)
    ensures After(a, HighPassKind, alpha, m, Steady(m.x, n)).x == m.x
  {
    if n > 0 {
      HighPassDecays(a, value, alpha, m, n - 1);
      assert Steady(m.x, n)[..n - 1] == Steady(m.x, n - 1);
      Commuted(value(alpha), Power(value(alpha), n - 1), value(m.y));
    }
  }

  lemma Commuted(a: real, p: real, y: real)
    ensures a * (p * y) == (p * a) * y
  {
  }

  /** Through the low-pass the distance from it dies away, by one less the coefficient. */
  lemma {:induction false} LowPassSettles(a: Arithmetic, value: Sample -> real, alpha: Sample, m: Memory, x: Sample,
                                          n: nat)
    requires Exact(a, value)
    ensures value(x) - value(After(a, LowPassKind, alpha, m, Steady(x, n)).y)
            == Power(1.0 - value(alpha), n) * (value(x) - value(m.y))
  {
    if n > 0 {
      LowPassSettles(a, value, alpha, m, x, n - 1);
      assert Steady(x, n)[..n - 1] == Steady(x, n - 1);
      var y := value(After(a, LowPassKind, alpha, m, Steady(x, n - 1)).y);
      Approach(value(alpha), value(x), y);
      Commuted(1.0 - value(alpha), Power(1.0 - value(alpha), n - 1), value(x) - value(m.y));
    }
  }

  lemma Approach(alpha: real, x: real, y: real)
    ensures x - (alpha * x + (1.0 - alpha) * y) == (1.0 - alpha) * (x - y)
  {
    assert (1.0 - alpha) * x == x - alpha * x;
  }
}

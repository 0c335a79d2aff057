/** The adaptive send window of a channel (`ChannelParams`, `adjust_params` and the
    shrink step of `handle_timeout` in src/channel.rs). */
module Window {
  import opened Octets

  const WINDOW: nat := 2
  const WINDOW_MIN: nat := 2
  const WINDOW_MIN_LIMIT_MEDIUM: nat := 5
  const WINDOW_MIN_LIMIT_FAST: nat := 16
  const WINDOW_MAX_SLOW: nat := 5
  const WINDOW_MAX_MEDIUM: nat := 12
  const WINDOW_MAX_FAST: nat := 48
  const FAST_RATE_THRESHOLD: nat := 10
  const RTT_FAST: real := 0.18
  const RTT_MEDIUM: real := 0.75
  const WINDOW_FLEXIBILITY: nat := 4
  const MAX_TRIES: nat := 5

  datatype Params = Params(
    maxTries: nat,
    fastRounds: U16,
    mediumRounds: U16,
    window: nat,
    windowMax: nat,
    windowMin: nat,
    flexibility: nat)

  function Initial(slow: bool): Params {
    if slow
    then Params(MAX_TRIES, 0, 0, 1, 1, 1, 1)
    else Params(MAX_TRIES, 0, 0, WINDOW, WINDOW_MAX_SLOW, WINDOW_MIN, WINDOW_FLEXIBILITY)
  }

  /** `u16` addition of one, wrapping as in a release build. */
  function Bump(rounds: U16): U16 {
    (rounds + 1) % 65536
  }

  /** A delivery proof came back over a link with round trip time `rtt`. */
  function Grow(p: Params, rtt: real): Params {
    var p := if p.window < p.windowMax then p.(window := p.window + 1) else p;
    if rtt == 0.0 then p
    else if rtt > RTT_FAST then
      if rtt > RTT_MEDIUM then p.(fastRounds := 0, mediumRounds := 0)
      else
        var q := p.(fastRounds := 0, mediumRounds := Bump(p.mediumRounds));
        if q.windowMax < WINDOW_MAX_MEDIUM && q.mediumRounds == FAST_RATE_THRESHOLD
        then q.(windowMax := WINDOW_MAX_MEDIUM, windowMin := WINDOW_MIN_LIMIT_MEDIUM)
        else q
    else
      var q := p.(fastRounds := Bump(p.fastRounds));
      if q.windowMax < WINDOW_MAX_FAST && q.fastRounds == FAST_RATE_THRESHOLD
      then q.(windowMax := WINDOW_MAX_FAST, windowMin := WINDOW_MIN_LIMIT_FAST)
      else q
  }

  /** A message timed out and will be sent again. */
  function Shrink(p: Params): Params {
    if p.window > p.windowMin then
      var q := p.(window := p.window - 1);
      if q.windowMax > q.windowMin + q.flexibility then q.(windowMax := q.windowMax - 1) else q
    else p
  }

  /** The parameters as the source keeps them: one mutable record behind a lock. */
  class ChannelParams {
    var maxTries: nat
    var fastRounds: U16
    var mediumRounds: U16
    var window: nat
    var windowMax: nat
    var windowMin: nat
    var flexibility: nat

    function Value(): Params
      reads this
    {
      Params(maxTries, fastRounds, mediumRounds, window, windowMax, windowMin, flexibility)
    }

    constructor (slow: bool)
      ensures Value() == Initial(slow)
    {
      maxTries, fastRounds, mediumRounds := 5, 0, 0;
      if slow {
        window, windowMax, windowMin, flexibility := 1, 1, 1, 1;
      } else {
        window, windowMax, windowMin, flexibility := WINDOW, WINDOW_MAX_SLOW, WINDOW_MIN, WINDOW_FLEXIBILITY;
      }
    }

    method AdjustParams(rtt: real)
      modifies this
      ensures Value() == Grow(old(Value()), rtt)
    {
      if window < windowMax {
        window := window + 1;
      }
      if rtt != 0.0 {
        if rtt > RTT_FAST {
          fastRounds := 0;
          if rtt > RTT_MEDIUM {
            mediumRounds := 0;
          } else {
            mediumRounds := Bump(mediumRounds);
            if windowMax < WINDOW_MAX_MEDIUM && mediumRounds == FAST_RATE_THRESHOLD {
              windowMax := WINDOW_MAX_MEDIUM;
              windowMin := WINDOW_MIN_LIMIT_MEDIUM;
            }
          }
        } else {
          fastRounds := Bump(fastRounds);
          if windowMax < WINDOW_MAX_FAST && fastRounds == FAST_RATE_THRESHOLD {
            windowMax := WINDOW_MAX_FAST;
            windowMin := WINDOW_MIN_LIMIT_FAST;
          }
        }
      }
    }

    method ShrinkOnTimeout()
      modifies this
      ensures Value() == Shrink(old(Value()))
    {
      if window > windowMin {
        window := window - 1;
        if windowMax > windowMin + flexibility {
          windowMax := windowMax - 1;
        }
      }
    }
  }

  datatype Event = Proven(rtt: real) | TimedOut

  function Step(p: Params, e: Event): Params {
    match e
    case Proven(rtt) => Grow(p, rtt)
    case TimedOut => Shrink(p)
  }

  function Run(p: Params, events: seq<Event>): Params
    decreases |events|
  {
    if events == [] then p else Step(Run(p, events[..|events| - 1]), events[|events| - 1])
  }

  /** The four tiers. The gap kept above `windowMin` is the flexibility the channel was
      opened with, so a channel opened on a slow link may later sit one above the minimum. */
  predicate InTier(slow: bool, p: Params) {
    || (slow && p.windowMin == 1 && p.windowMax == 1)
    || (!slow && p.windowMin == WINDOW_MIN && p.windowMax == WINDOW_MAX_SLOW)
    || (p.windowMin == WINDOW_MIN_LIMIT_MEDIUM
        && WINDOW_MIN_LIMIT_MEDIUM + p.flexibility <= p.windowMax <= WINDOW_MAX_MEDIUM)
    || (p.windowMin == WINDOW_MIN_LIMIT_FAST
        && WINDOW_MIN_LIMIT_FAST + p.flexibility <= p.windowMax <= WINDOW_MAX_FAST)
  }

  predicate Bounded(slow: bool, p: Params) {
    && p.maxTries == MAX_TRIES
    && p.flexibility == Initial(slow).flexibility
    && InTier(slow, p)
    && Initial(slow).window <= p.window <= p.windowMax
  }

  lemma StepStaysBounded(slow: bool, p: Params, e: Event)
    requires Bounded(slow, p)
    ensures Bounded(slow, Step(p, e))
  {
  }

  /** Every run of proofs and timeouts keeps the window inside its tier. */
  lemma {:induction false} RunStaysBounded(slow: bool, events: seq<Event>)
    ensures Bounded(slow, Run(Initial(slow), events))
    ensures Run(Initial(slow), events).window <= WINDOW_MAX_FAST
    decreases |events|
  {
    hide Step;
    if events != [] {
      RunStaysBounded(slow, events[..|events| - 1]);
      StepStaysBounded(slow, Run(Initial(slow), events[..|events| - 1]), events[|events| - 1]);
    }
  }

  /** A window minimum, once reached, is never given up. */
  lemma {:induction false} WindowMinNeverDecreases(slow: bool, before: seq<Event>, more: seq<Event>)
    ensures Run(Initial(slow), before).windowMin <= Run(Initial(slow), before + more).windowMin
    decreases |more|
  {
    if more == [] {
      assert before + more == before;
    } else {
      var shorter := more[..|more| - 1];
      assert (before + more)[..|before + more| - 1] == before + shorter;
      WindowMinNeverDecreases(slow, before, shorter);
      RunStaysBounded(slow, before + shorter);
    }
  }

  /** A proof opens the window by at most one. */
  lemma GrowsByOne(p: Params, rtt: real)
    ensures Grow(p, rtt).window <= p.window + 1
  {
  }

  // ---- Steady weather -----------------------------------------------------------------------

  function Times(e: Event, n: nat): seq<Event> {
    seq(n, _ => e)
  }

  lemma RunOnce(p: Params, e: Event, n: nat)
    ensures Run(p, Times(e, n + 1)) == Step(Run(p, Times(e, n)), e)
    ensures Run(p, Times(e, 0)) == p
  {
    assert Times(e, n + 1)[..n] == Times(e, n);
  }

  /** `n` timeouts in a row take one off the window each until it is at its minimum. The maximum
      follows as long as it leaves the flexibility above the minimum, and nothing else changes. */
  lemma {:induction false} TimeoutsShrink(p: Params, n: nat)
    ensures var k := Min(n, SaturatingSub(p.window, p.windowMin));
            var floor := p.windowMin + p.flexibility;
            Run(p, Times(TimedOut, n)) ==
            p.(window := p.window - k,
               windowMax := if p.windowMax <= floor then p.windowMax else floor + SaturatingSub(p.windowMax - floor, k))
  {
    hide Run;
    RunOnce(p, TimedOut, if n > 0 then n - 1 else 0);
    if n > 0 {
      TimeoutsShrink(p, n - 1);
    }
  }

  /** `n` slow proofs in a row open the window by one each up to the maximum and start the counts of
      better ones again. */
  lemma {:induction false} SlowProofs(p: Params, rtt: real, n: nat)
    requires p.window <= p.windowMax && rtt > RTT_MEDIUM
    ensures Run(p, Times(Proven(rtt), n)) ==
            p.(window := Min(p.windowMax, p.window + n),
               fastRounds := if n == 0 then p.fastRounds else 0,
               mediumRounds := if n == 0 then p.mediumRounds else 0)
  {
    hide Run;
    RunOnce(p, Proven(rtt), if n > 0 then n - 1 else 0);
    if n > 0 {
      SlowProofs(p, rtt, n - 1);
    }
  }

  /** Proofs without a measured time open the window and count for nothing else. */
  lemma {:induction false} UnmeasuredProofs(p: Params, n: nat)
    requires p.window <= p.windowMax
    ensures Run(p, Times(Proven(0.0), n)) == p.(window := Min(p.windowMax, p.window + n))
  {
    hide Run;
    RunOnce(p, Proven(0.0), if n > 0 then n - 1 else 0);
    if n > 0 {
      UnmeasuredProofs(p, n - 1);
    }
  }

  /** What the maximum and the minimum are after `n` proofs in a row good enough for a tier: they jump
      with the tenth, and the window, which only ever takes one step, follows from there. */
  function Climbed(p: Params, n: nat, tierMax: nat, tierMin: nat): (int, nat, nat) {
    if p.windowMax >= tierMax || n < FAST_RATE_THRESHOLD
    then (Min(p.windowMax, p.window + n), p.windowMax, p.windowMin)
    else (Min(tierMax, Min(p.windowMax, p.window + FAST_RATE_THRESHOLD) + n - FAST_RATE_THRESHOLD), tierMax, tierMin)
  }

  lemma {:induction false} FastProofs(p: Params, rtt: real, n: nat)
    requires p.window <= p.windowMax && p.fastRounds == 0 && rtt != 0.0 && rtt <= RTT_FAST && n < 65536
    ensures var q := Run(p, Times(Proven(rtt), n));
            && (q.window, q.windowMax, q.windowMin) == Climbed(p, n, WINDOW_MAX_FAST, WINDOW_MIN_LIMIT_FAST)
            && q.fastRounds == n && q.mediumRounds == p.mediumRounds
            && q.maxTries == p.maxTries && q.flexibility == p.flexibility
  {
    hide Run;
    RunOnce(p, Proven(rtt), if n > 0 then n - 1 else 0);
    if n > 0 {
      FastProofs(p, rtt, n - 1);
    }
  }

  lemma {:induction false} MediumProofs(p: Params, rtt: real, n: nat)
    requires p.window <= p.windowMax && p.mediumRounds == 0 && RTT_FAST < rtt <= RTT_MEDIUM && n < 65536
    ensures var q := Run(p, Times(Proven(rtt), n));
            && (q.window, q.windowMax, q.windowMin) == Climbed(p, n, WINDOW_MAX_MEDIUM, WINDOW_MIN_LIMIT_MEDIUM)
            && q.mediumRounds == n && q.fastRounds == (if n == 0 then p.fastRounds else 0)
            && q.maxTries == p.maxTries && q.flexibility == p.flexibility
  {
    hide Run;
    RunOnce(p, Proven(rtt), if n > 0 then n - 1 else 0);
    if n > 0 {
      MediumProofs(p, rtt, n - 1);
    }
  }

  /** A tier jump can leave `window` below `windowMin`: `windowMin` only stops shrinking. */
  lemma TierJumpLeavesWindowBelowMinimum() returns (events: seq<Event>)
    ensures |events| == FAST_RATE_THRESHOLD
    ensures var p := Run(Initial(false), events); p.window == 5 && p.windowMin == 16 && p.windowMax == 48
  {
    events := Times(Proven(0.1), FAST_RATE_THRESHOLD);
    FastProofs(Initial(false), 0.1, FAST_RATE_THRESHOLD);
  }
}

/** Proof-of-work stamps (lxmf/src/stamper.rs). */
module Stamper {
  import opened Octets
  import opened Crypto
  import Msgpack

  const STAMP_SIZE: nat := 32
  const WORKBLOCK_EXPAND_ROUNDS: nat := 3000
  const WORKBLOCK_EXPAND_ROUNDS_PN: nat := 1000
  const LXMF_OVERHEAD: nat := 112

  type Stamp = b: Bytes | |b| == STAMP_SIZE witness seq(STAMP_SIZE, _ => 0)

  // ---- Leading zero bits --------------------------------------------------------------------

  /** `u8::leading_zeros`. */
  function LeadingZeros8(b: Byte): (n: nat)
    ensures n <= 8 && (b > 0 ==> n < 8)
  {
    if b >= 128 then 0 else if b >= 64 then 1 else if b >= 32 then 2 else if b >= 16 then 3
    else if b >= 8 then 4 else if b >= 4 then 5 else if b >= 2 then 6 else if b >= 1 then 7 else 8
  }

  lemma LeadingZeros8IsThreshold(b: Byte, c: nat)
    requires c <= 8
    ensures LeadingZeros8(b) >= c <==> b < Pow2(8 - c)
  {
    assert Pow2(4) == 16;
    assert Pow2(8 - c) == [256, 128, 64, 32, 16, 8, 4, 2, 1][c];
  }

  function ZeroBits(data: Bytes): nat {
    if data == [] then 0
    else if data[0] == 0 then 8 + ZeroBits(data[1..])
    else LeadingZeros8(data[0])
  }

  method LeadingZeroBits(data: Bytes) returns (value: nat)
    ensures value == ZeroBits(data)
  {
    value := 0;
    for k := 0 to |data|
      invariant value + ZeroBits(data[k..]) == ZeroBits(data)
    {
      assert data[k..][1..] == data[k + 1..];
      if data[k] == 0 {
        value := value + 8;
      } else {
        value := value + LeadingZeros8(data[k]);
        return;
      }
    }
  }

  lemma LeadingDigit(high: nat, low: nat, p: nat, q: nat)
    requires low < p
    ensures high * p + low < q * p <==> high < q
  {
    if high < q {
      assert (high + 1) * p <= q * p;
    } else {
      assert high * p >= q * p;
    }
  }

  /** Counting zero bits is comparing the big-endian integer with a power of two. */
  lemma {:induction false} ZeroBitsIsThreshold(data: Bytes, c: nat)
    requires c <= 8 * |data|
    ensures ZeroBits(data) >= c <==> FromBigEndian(data) < Pow2(8 * |data| - c)
  {
    hide Pow2, Pow256, FromBigEndian, LeadingZeros8;
    if data != [] {
      var tail := data[1..];
      var p := Pow256(|tail|);
      FromBigEndianHead(data);
      FromBigEndianBound(tail);
      Pow256IsPow2(|tail|);
      if c <= 8 {
        Pow2Add(8 - c, 8 * |tail|);
        LeadingDigit(data[0], FromBigEndian(tail), p, Pow2(8 - c));
        LeadingZeros8IsThreshold(data[0], c);
        LeadingZeros8IsThreshold(0, c);
      } else if data[0] == 0 {
        ZeroBitsIsThreshold(tail, c - 8);
      } else {
        Pow2Monotone(8 * |data| - c, 8 * |tail|);
        LeadingDigit(data[0], FromBigEndian(tail), p, 1);
      }
    } else {
      assert FromBigEndian(data) == 0 < Pow2(0) by { EmptyIsZero(data); }
    }
  }

  lemma EmptyIsZero(data: Bytes)
    requires data == []
    ensures FromBigEndian(data) == 0
  {
  }

  // ---- Stamps -------------------------------------------------------------------------------

  function Round(c: Suite, material: Bytes, n: nat): Derived {
    c.hkdf(c.sha256(material + Msgpack.WriteUint(n)), material)
  }

  function Workblock(c: Suite, material: Bytes, rounds: nat): (block: Bytes)
    ensures |block| == rounds * 256
  {
    if rounds == 0 then [] else Workblock(c, material, rounds - 1) + Round(c, material, rounds - 1)
  }

  method ExpandWorkblock(c: Suite, material: Bytes, rounds: nat) returns (block: Bytes)
    ensures block == Workblock(c, material, rounds)
  {
    block := [];
    for n := 0 to rounds
      invariant block == Workblock(c, material, n)
    {
      block := block + Round(c, material, n);
    }
  }

  function StampValue(c: Suite, workblock: Bytes, stamp: Bytes): nat {
    ZeroBits(c.sha256(workblock + stamp))
  }

  predicate StampValid(c: Suite, stamp: Bytes, cost: nat, workblock: Bytes) {
    cost == 0 || (cost <= 256 && ZeroBits(c.sha256(workblock + stamp)) >= cost)
  }

  /** The validity rule of the reference implementation: the digest, read as an integer, lies
      below 2 to the power 256 less the cost. No stamp is valid above 256. */
  lemma StampValidIsThreshold(c: Suite, stamp: Bytes, cost: nat, workblock: Bytes)
    ensures StampValid(c, stamp, cost, workblock) <==>
            cost <= 256 && FromBigEndian(c.sha256(workblock + stamp)) < Pow2(256 - cost)
  {
    hide ZeroBits, FromBigEndian, Pow2;
    if cost <= 256 {
      ZeroBitsIsThreshold(c.sha256(workblock + stamp), cost);
    }
  }

  /** A stamp is worth exactly the largest cost (up to 256) at which it is valid. */
  lemma StampValueIsLargestCost(c: Suite, stamp: Bytes, cost: nat, workblock: Bytes)
    ensures StampValue(c, workblock, stamp) <= 256
    ensures StampValid(c, stamp, cost, workblock) <==> cost <= StampValue(c, workblock, stamp)
  {
    ZeroBitsBound(c.sha256(workblock + stamp));
  }

  lemma {:induction false} ZeroBitsBound(data: Bytes)
    ensures ZeroBits(data) <= 8 * |data|
  {
    if data != [] {
      ZeroBitsBound(data[1..]);
    }
  }

  /** Hence a stamp good for a cost is good for every lower cost. */
  lemma ValidityIsMonotone(c: Suite, stamp: Bytes, cost: nat, lower: nat, workblock: Bytes)
    requires lower <= cost && StampValid(c, stamp, cost, workblock)
    ensures StampValid(c, stamp, lower, workblock)
  {
    StampValueIsLargestCost(c, stamp, cost, workblock);
    StampValueIsLargestCost(c, stamp, lower, workblock);
  }

  /** The first draw that is valid. */
  function FirstValid(c: Suite, workblock: Bytes, cost: nat, draws: seq<Stamp>): Option<Stamp> {
    if draws == [] then None
    else if StampValid(c, draws[0], cost, workblock) then Some(draws[0])
    else FirstValid(c, workblock, cost, draws[1..])
  }

  lemma {:induction false} FirstValidIsValid(c: Suite, workblock: Bytes, cost: nat, draws: seq<Stamp>)
    ensures var r := FirstValid(c, workblock, cost, draws);
            && (r.Some? ==> r.value in draws && StampValid(c, r.value, cost, workblock)
                            && cost <= StampValue(c, workblock, r.value))
            && (r.None? <==> forall k :: 0 <= k < |draws| ==> !StampValid(c, draws[k], cost, workblock))
  {
    if draws != [] {
      StampValueIsLargestCost(c, draws[0], cost, workblock);
      FirstValidIsValid(c, workblock, cost, draws[1..]);
    }
  }

  /** The search loop. `draws` is what the random source yields; the source searches for ever, so
      running out of draws without a find is the run that does not return. */
  method GenerateAgainst(c: Suite, workblock: Bytes, cost: nat, draws: seq<Stamp>)
    returns (stamp: Option<Stamp>, value: nat)
    ensures stamp == FirstValid(c, workblock, cost, draws)
    ensures stamp.Some? ==> value == StampValue(c, workblock, stamp.value)
  {
    var rounds := 0;
    while rounds < |draws|
      invariant rounds <= |draws|
      invariant FirstValid(c, workblock, cost, draws) == FirstValid(c, workblock, cost, draws[rounds..])
    {
      var draw := draws[rounds];
      rounds := rounds + 1;
      if StampValid(c, draw, cost, workblock) {
        return Some(draw), StampValue(c, workblock, draw);
      }
    }
    stamp, value := None, 0;
  }

  // ---- Propagation stamps -------------------------------------------------------------------

  datatype Validated = Validated(transientId: Digest, lxmData: Bytes, value: nat, stamp: Stamp)

  function PnWorkblock(c: Suite, lxmData: Bytes): Bytes {
    Workblock(c, c.sha256(lxmData), WORKBLOCK_EXPAND_ROUNDS_PN)
  }

  function ValidatePnStamp(c: Suite, data: Bytes, cost: nat): Option<Validated> {
    if |data| <= LXMF_OVERHEAD + STAMP_SIZE then None
    else
      var lxmData, stamp := data[..|data| - STAMP_SIZE], data[|data| - STAMP_SIZE..];
      var workblock := PnWorkblock(c, lxmData);
      if StampValid(c, stamp, cost, workblock)
      then Some(Validated(c.sha256(lxmData), lxmData, StampValue(c, workblock, stamp), stamp))
      else None
  }

  /** Validation accepts exactly a long enough message followed by a stamp of at least the cost,
      and takes the two apart again. */
  lemma PnStampRoundTrip(c: Suite, lxmData: Bytes, stamp: Stamp, cost: nat)
    ensures var value := StampValue(c, PnWorkblock(c, lxmData), stamp);
            ValidatePnStamp(c, lxmData + stamp, cost) ==
            if |lxmData| > LXMF_OVERHEAD && cost <= value
            then Some(Validated(c.sha256(lxmData), lxmData, value, stamp)) else None
  {
    var data := lxmData + stamp;
    assert data[..|data| - STAMP_SIZE] == lxmData && data[|data| - STAMP_SIZE..] == stamp;
    StampValueIsLargestCost(c, stamp, cost, PnWorkblock(c, lxmData));
  }

  /** Nothing else is accepted: whatever validates is such a pair. */
  lemma ValidatedIsASplit(c: Suite, data: Bytes, cost: nat)
    ensures var r := ValidatePnStamp(c, data, cost);
            r.Some? ==>
              && data == r.value.lxmData + r.value.stamp && |r.value.lxmData| > LXMF_OVERHEAD
              && r.value.transientId == c.sha256(r.value.lxmData)
              && r.value.value >= cost
  {
    var r := ValidatePnStamp(c, data, cost);
    if r.Some? {
      StampValueIsLargestCost(c, r.value.stamp, cost, PnWorkblock(c, r.value.lxmData));
    }
  }

  /** What the sender's search finds, the node's validation accepts, at the cost searched for and
      at every lower one. */
  method StampTransientData(c: Suite, lxmData: Bytes, cost: nat, draws: seq<Stamp>) returns (data: Option<Bytes>)
    ensures data.Some? && |lxmData| > LXMF_OVERHEAD ==>
              forall lower :: 0 <= lower <= cost ==>
                var r := ValidatePnStamp(c, data.value, lower);
                r.Some? && r.value.lxmData == lxmData && r.value.transientId == c.sha256(lxmData)
  {
    var workblock := ExpandWorkblock(c, c.sha256(lxmData), WORKBLOCK_EXPAND_ROUNDS_PN);
    var stamp, value := GenerateAgainst(c, workblock, cost, draws);
    FirstValidIsValid(c, workblock, cost, draws);
    if stamp.None? {
      return None;
    }
    data := Some(lxmData + stamp.value);
    forall lower | 0 <= lower <= cost
      ensures var r := ValidatePnStamp(c, data.value, lower);
              |lxmData| > LXMF_OVERHEAD ==>
                r.Some? && r.value.lxmData == lxmData && r.value.transientId == c.sha256(lxmData)
    {
      PnStampRoundTrip(c, lxmData, stamp.value, lower);
    }
  }
}

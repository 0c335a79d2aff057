/** What the conversions to doubles mean: `f32 as f64` where a received float is widened
    (lxmf/src/fields.rs), and `as f64` where a stored time is an integer (src/transport.rs). */
module FloatLaws {
  import opened Octets
  import opened Msgpack
  import opened PersistedPaths

  /** The magnitude of a finite double in units of its smallest step, 2^-1074. */
  function Magnitude64(m: nat): nat {
    var e, f := m / 0x10_0000_0000_0000, m % 0x10_0000_0000_0000;
    if e == 0 then f else (0x10_0000_0000_0000 + f) * Pow2(e - 1)
  }

  /** The magnitude of a finite single in units of its smallest step, 2^-149. */
  function Magnitude32(m: nat): nat {
    var e, f := m / 0x80_0000, m % 0x80_0000;
    if e == 0 then f else (0x80_0000 + f) * Pow2(e - 1)
  }

  lemma MagnitudeOf(e: nat, f: nat)
    requires e > 0 && f < 0x10_0000_0000_0000
    ensures Magnitude64(e * 0x10_0000_0000_0000 + f) == (0x10_0000_0000_0000 + f) * Pow2(e - 1)
  {
    hide Pow2;
    assert (e * 0x10_0000_0000_0000 + f) / 0x10_0000_0000_0000 == e;
  }

  // ---- Widening -------------------------------------------------------------------------------

  lemma PowerOf29()
    ensures Pow2(29) == 0x2000_0000
  {
    assert Pow2(8) == 0x100;
    Pow2Add(8, 8);
    Pow2Add(16, 8);
    assert Pow2(5) == 32;
    Pow2Add(24, 5);
  }

  /** (2^23 + f) 2^29 2^b == (2^23 + f) 2^c, where 29 + b == c. */
  lemma Shifted(s: nat, b: nat, c: nat)
    requires 29 + b == c
    ensures (s * 0x2000_0000) * Pow2(b) == s * Pow2(c)
  {
    hide Pow2;
    PowerOf29();
    Pow2Add(29, b);
    Grouped(s, 0x2000_0000, Pow2(b));
  }

  lemma Grouped(a: nat, b: nat, c: nat)
    ensures (a * b) * c == a * (b * c)
  {
  }

  lemma SplitPower(s: nat, a: nat, b: nat)
    ensures s * Pow2(a + b) == (s * Pow2(a)) * Pow2(b)
  {
    hide Pow2;
    Pow2Add(a, b);
    Grouped(s, Pow2(a), Pow2(b));
  }

  lemma NormalKeepsValue(mantissa: nat, exponent: nat)
    requires 0x80_0000 <= mantissa < 0x100_0000 && exponent > 0
    ensures mantissa % 0x80_0000 * 0x2000_0000 < 0x10_0000_0000_0000
    ensures Magnitude64(exponent * 0x10_0000_0000_0000 + mantissa % 0x80_0000 * 0x2000_0000)
            == mantissa * Pow2(exponent + 28)
  {
    hide Magnitude64, Pow2;
    assert mantissa % 0x80_0000 == mantissa - 0x80_0000;
    MagnitudeOf(exponent, (mantissa - 0x80_0000) * 0x2000_0000);
    Shifted(mantissa, exponent - 1, exponent + 28);
  }

  lemma {:induction false} SubnormalKeepsValue(mantissa: nat, exponent: nat)
    requires 0 < mantissa < 0x100_0000 && exponent >= 824
    requires mantissa * Pow2(exponent - 824) >= 0x80_0000
    ensures WidenSubnormal(mantissa, exponent) < exponent * 0x10_0000_0000_0000 + 0x10_0000_0000_0000
    ensures Magnitude64(WidenSubnormal(mantissa, exponent)) == mantissa * Pow2(exponent + 28)
    decreases 0x100_0000 - mantissa
  {
    hide Magnitude64, Pow2;
    if mantissa >= 0x80_0000 {
      NormalKeepsValue(mantissa, exponent);
    } else {
      PowerOfZero();
      assert exponent > 824;
      HalfPower(mantissa, exponent);
      SubnormalKeepsValue(2 * mantissa, exponent - 1);
    }
  }

  lemma HalfPower(mantissa: nat, exponent: nat)
    requires exponent > 824
    ensures mantissa * Pow2(exponent - 824) == (2 * mantissa) * Pow2(exponent - 1 - 824)
    ensures mantissa * Pow2(exponent + 28) == (2 * mantissa) * Pow2(exponent - 1 + 28)
  {
  }

  /** A single without its sign, widened. */
  function Widened(e: nat, f: nat): nat
    requires e < 0x100 && f < 0x80_0000
  {
    if e == 0xff then 0x7ff0_0000_0000_0000 + (if f == 0 then 0 else 0x8_0000_0000_0000 + f % 0x40_0000 * 0x2000_0000)
    else if e > 0 then (e + 896) * 0x10_0000_0000_0000 + f * 0x2000_0000
    else if f == 0 then 0
    else WidenSubnormal(f, 897)
  }

  lemma FiniteKeepsValue(e: nat, f: nat)
    requires e < 0xff && f < 0x80_0000
    ensures Magnitude64(Widened(e, f)) == Magnitude32(e * 0x80_0000 + f) * Pow2(925)
    ensures Widened(e, f) < 0x7ff0_0000_0000_0000
  {
    hide Pow2, Magnitude64, Magnitude32;
    SingleOf(e, f);
    if e > 0 {
      MagnitudeOf(e + 896, f * 0x2000_0000);
      Shifted(0x80_0000 + f, e + 895, e + 924);
      SplitPower(0x80_0000 + f, e - 1, 925);
    } else if f > 0 {
      SubnormalStarts(f);
      SubnormalKeepsValue(f, 897);
    } else {
      ZeroMagnitude();
    }
  }

  lemma SingleOf(e: nat, f: nat)
    requires f < 0x80_0000
    ensures Magnitude32(e * 0x80_0000 + f) == if e == 0 then f else (0x80_0000 + f) * Pow2(e - 1)
  {
    hide Pow2;
    assert (e * 0x80_0000 + f) / 0x80_0000 == e;
  }

  lemma WidenSplits(bits: nat)
    requires bits < TWO_32
    ensures var e, f := bits / 0x80_0000 % 0x100, bits % 0x80_0000;
            && Widen(bits) == bits / 0x8000_0000 * TWO_63 + Widened(e, f)
            && bits % 0x8000_0000 == e * 0x80_0000 + f
  {
    hide WidenSubnormal;
  }

  lemma WidenedFits(e: nat, f: nat)
    requires e < 0x100 && f < 0x80_0000
    ensures Widened(e, f) < TWO_63
  {
    if e < 0xff {
      FiniteKeepsValue(e, f);
    }
  }

  lemma SignSplits(sign: nat, v: nat)
    requires v < TWO_63
    ensures (sign * TWO_63 + v) / TWO_63 == sign && (sign * TWO_63 + v) % TWO_63 == v
  {
  }

  /** A received single keeps its sign and its value; infinities stay infinite and only what is not a
      number stays not a number. */
  lemma WidenKeepsValue(bits: nat)
    requires bits < TWO_32
    ensures var w := Widen(bits);
            var finite := bits / 0x80_0000 % 0x100 != 0xff;
            && w / TWO_63 == bits / 0x8000_0000
            && (finite ==> Magnitude64(w % TWO_63) == Magnitude32(bits % 0x8000_0000) * Pow2(925)
                           && w % TWO_63 < 0x7ff0_0000_0000_0000)
            && (!finite ==> w % TWO_63 >= 0x7ff0_0000_0000_0000
                            && (w % TWO_63 == 0x7ff0_0000_0000_0000 <==> bits % 0x80_0000 == 0))
  {
    hide Pow2, Magnitude64, Magnitude32, Widen, WidenSubnormal;
    var e, f := bits / 0x80_0000 % 0x100, bits % 0x80_0000;
    WidenSplits(bits);
    WidenedFits(e, f);
    SignSplits(bits / 0x8000_0000, Widened(e, f));
    if e < 0xff {
      FiniteKeepsValue(e, f);
    }
  }

  lemma ZeroMagnitude()
    ensures Magnitude64(0) == 0
  {
  }

  lemma SubnormalStarts(f: nat)
    requires f > 0
    ensures f * Pow2(897 - 824) >= 0x80_0000
  {
    hide Pow2;
    PowerOf29();
    Pow2Monotone(29, 73);
    ProductMonotone(1, f, Pow2(73));
  }

  // ---- Integers -------------------------------------------------------------------------------

  /** The double of an integer is the nearest there is, the one with an even last place if two are
      equally near; below 2^53 it is the integer itself. */
  lemma DoubleIsNearest(m: nat) returns (nearest: nat, step: nat)
    requires 0 < m < TWO_64
    ensures step > 0 && Magnitude64(DoubleOf(m)) == nearest * Pow2(1074) && nearest % step == 0
    ensures 2 * Distance(nearest, m) <= step
    ensures 2 * Distance(nearest, m) == step ==> nearest / step % 2 == 0
    ensures m < 0x20_0000_0000_0000 ==> nearest == m
    ensures 0x10_0000_0000_0000 * step <= m || step == 1
  {
    hide Pow2, Magnitude64, Log2;
    var e := Log2(m);
    HighestBit(m, e);
    if e <= 52 {
      nearest, step := m, 1;
      var s := m * Pow2(52 - e);
      Packed(e, s);
      SplitPower(m, 52 - e, e + 1022);
    } else {
      step := Pow2(e - 52);
      var q := RoundedQuotient(m, step);
      nearest := q * step;
      QuotientIs(m, step);
      Multiple(q, step);
      Packed(e, q);
      Pow2Add(e - 52, 1074);
      Grouped(q, step, Pow2(1074));
      BigStep(m, e, step);
    }
  }

  /** A time stored as an integer reads as a double for every 64-bit integer, signed or unsigned, with
      its sign and the nearest magnitude. */
  lemma IntegerReadsAsDouble(i: int)
    ensures AsDouble(Int(i)).Some? <==> -TWO_63 <= i < TWO_64
    ensures -TWO_63 <= i < TWO_64 ==>
              var bits := AsDouble(Int(i)).value;
              && (bits >= TWO_63 <==> i < 0)
              && bits % TWO_63 == DoubleOf(if i < 0 then -i else i)
  {
    hide DoubleOf;
  }

  function Distance(a: nat, b: nat): nat {
    if a < b then b - a else a - b
  }

  function RoundedQuotient(m: nat, p: nat): nat
    requires p > 0
  {
    m / p + (if 2 * (m % p) > p || (2 * (m % p) == p && m / p % 2 == 1) then 1 else 0)
  }

  /** A significand between 2^52 and 2^53, either end included, under an exponent. */
  lemma Packed(e: nat, s: nat)
    requires 0x10_0000_0000_0000 <= s <= 0x20_0000_0000_0000
    ensures Magnitude64((e + 1022) * 0x10_0000_0000_0000 + s) == s * Pow2(e + 1022)
  {
    if s < 0x20_0000_0000_0000 {
      MagnitudeOf(e + 1023, s - 0x10_0000_0000_0000);
    } else {
      MagnitudeOf(e + 1024, 0);
      Grouped(0x10_0000_0000_0000, 2, Pow2(e + 1022));
    }
  }

  lemma QuotientIs(m: nat, p: nat)
    requires p > 0
    ensures var q := RoundedQuotient(m, p);
            2 * Distance(q * p, m) <= p && (2 * Distance(q * p, m) == p ==> q % 2 == 0)
  {
    var q, r := m / p, m % p;
    assert m == q * p + r;
    assert (q + 1) * p == q * p + p;
  }

  lemma Multiple(q: nat, p: nat)
    requires p > 0
    ensures q * p % p == 0 && q * p / p == q
  {
    assert q * p == q * p + 0;
    Division(q, p, q * p / p, q * p % p);
  }

  lemma Division(q: nat, p: nat, d: nat, r: nat)
    requires p > 0 && q * p == d * p + r && r < p
    ensures d == q && r == 0
  {
    ProductMonotone(q + 1, d, p);
    ProductMonotone(d + 1, q, p);
  }

  lemma BigStep(m: nat, e: nat, step: nat)
    requires e > 52 && step == Pow2(e - 52) && Pow2(e) <= m
    ensures 0x10_0000_0000_0000 * step <= m && m >= 0x20_0000_0000_0000
  {
    hide Pow2;
    PowersOfTwo();
    Pow2Add(52, e - 52);
    Pow2Monotone(53, e);
    Pow2Add(52, 1);
    PowerOfOne();
  }

  lemma PowerOfZero()
    ensures Pow2(0) == 1
  {
  }

  lemma PowerOfOne()
    ensures Pow2(1) == 2
  {
  }
}

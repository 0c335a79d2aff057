/** Bytes, big-endian integers and the few sequence facts every other module uses. */
module Octets {

  type Byte = b: int | 0 <= b < 256
  type Bytes = seq<Byte>
  type U16 = n: int | 0 <= n < 65536

  datatype Option<+T> = None | Some(value: T)

  datatype Result<+T, +E> = Ok(value: T) | Err(error: E)

  function Min(a: int, b: int): int {
    if a <= b then a else b
  }

  /** Rust's `usize::saturating_sub`. */
  function SaturatingSub(a: nat, b: nat): nat {
    if a >= b then a - b else 0
  }

  function Pow2(n: nat): (p: nat)
    ensures p > 0
  {
    if n == 0 then 1 else 2 * Pow2(n - 1)
  }

  lemma {:induction false} Pow2Add(m: nat, n: nat)
    ensures Pow2(m + n) == Pow2(m) * Pow2(n)
  {
    if m > 0 {
      Pow2Add(m - 1, n);
      Doubled(Pow2(m - 1), Pow2(n));
    }
  }

  lemma Doubled(a: nat, b: nat)
    ensures 2 * (a * b) == (2 * a) * b
  {
  }

  lemma {:induction false} Pow2Monotone(m: nat, n: nat)
    ensures m <= n ==> Pow2(m) <= Pow2(n)
  {
    if m < n {
      Pow2Monotone(m, n - 1);
    }
  }

  lemma Regrouped<T>(a: seq<T>, b: seq<T>, c: seq<T>)
    ensures a + (b + c) == (a + b) + c
  {
  }

  lemma QuotientIsSmaller(n: nat, d: nat)
    requires d > 0
    ensures n / d <= n
  {
    assert n == d * (n / d) + n % d;
    ProductMonotone(1, d, n / d);
  }

  lemma ProductMonotone(a: nat, b: nat, d: nat)
    ensures a <= b ==> a * d <= b * d
  {
  }

  /** The number of values that fit in `width` bytes. */
  function Pow256(width: nat): (p: nat)
    ensures p > 0
  {
    if width == 0 then 1 else 256 * Pow256(width - 1)
  }

  lemma {:induction false} Pow256IsPow2(width: nat)
    ensures Pow256(width) == Pow2(8 * width)
  {
    if width > 0 {
      Pow256IsPow2(width - 1);
      Pow2Add(8, 8 * (width - 1));
      assert Pow2(8) == 256;
    }
  }

  /** Big-endian encoding of `n` in exactly `width` bytes, as `to_be_bytes`. */
  function BigEndian(n: nat, width: nat): (b: Bytes)
    ensures |b| == width
  {
    if width == 0 then [] else BigEndian(n / 256, width - 1) + [n % 256]
  }

  /** The big-endian value of a byte string, as `from_be_bytes`. */
  function FromBigEndian(b: Bytes): nat {
    if b == [] then 0 else 256 * FromBigEndian(b[..|b| - 1]) + b[|b| - 1]
  }

  lemma {:induction false} BigEndianRoundTrip(n: nat, width: nat)
    requires n < Pow256(width)
    ensures FromBigEndian(BigEndian(n, width)) == n
  {
    if width > 0 {
      BigEndianRoundTrip(n / 256, width - 1);
      assert BigEndian(n, width)[..width - 1] == BigEndian(n / 256, width - 1);
    }
  }

  lemma {:induction false} FromBigEndianBound(b: Bytes)
    ensures FromBigEndian(b) < Pow256(|b|)
  {
    if b != [] {
      FromBigEndianBound(b[..|b| - 1]);
    }
  }

  /** The value of a string, read from its first byte instead of its last. */
  lemma {:induction false} FromBigEndianHead(b: Bytes)
    requires b != []
    ensures FromBigEndian(b) == b[0] * Pow256(|b| - 1) + FromBigEndian(b[1..])
  {
    if |b| > 1 {
      var front := b[..|b| - 1];
      FromBigEndianHead(front);
      assert front[1..] == b[1..][..|b| - 2];
      assert b[1..][|b| - 2] == b[|b| - 1];
      ShiftedHead(b[0], Pow256(|b| - 2), FromBigEndian(front[1..]), b[|b| - 1]);
    }
  }

  lemma ShiftedHead(head: nat, power: nat, middle: nat, last: nat)
    ensures 256 * (head * power + middle) + last == head * (256 * power) + (256 * middle + last)
  {
    assert 256 * (head * power) == head * (256 * power);
  }

  /** Two-byte big-endian fields, written out because headers slice them by position. */
  function Be16(n: U16): (b: Bytes)
    ensures |b| == 2 && FromBe16(b[0], b[1]) == n
  {
    [n / 256, n % 256]
  }

  function FromBe16(hi: Byte, lo: Byte): (n: U16) {
    256 * hi + lo
  }

  /** Truncation to `u16`. */
  function Wrap(n: nat): U16 {
    n % 65536
  }

  lemma WrapSmall(n: nat)
    requires n < 65536
    ensures Wrap(n) == n
  {
  }

  lemma WrapSuccessor(n: nat)
    ensures Wrap(Wrap(n) + 1) == Wrap(n + 1)
  {
  }

  ghost predicate IsPrefix<T>(a: seq<T>, b: seq<T>) {
    |a| <= |b| && a == b[..|a|]
  }
}

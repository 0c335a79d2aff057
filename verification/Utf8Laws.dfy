/** The strings `FieldValue` accepts are exactly the encodings of sequences of Unicode scalar values
    (definitions D76 and D92 of the Unicode Standard). */
module Utf8Laws {
  import opened Octets
  import opened Msgpack

  type Scalar = u: nat | u < 0xd800 || 0xe000 <= u < 0x110000

  function Encode(u: Scalar): (b: Bytes)
    ensures 1 <= |b| <= 4
  {
    if u < 0x80 then [u]
    else if u < 0x800 then [0xc0 + u / 0x40, 0x80 + u % 0x40]
    else if u < 0x10000 then [0xe0 + u / 0x1000, 0x80 + u / 0x40 % 0x40, 0x80 + u % 0x40]
    else [0xf0 + u / 0x40000, 0x80 + u / 0x1000 % 0x40, 0x80 + u / 0x40 % 0x40, 0x80 + u % 0x40]
  }

  function EncodeAll(text: seq<Scalar>): Bytes {
    if text == [] then [] else Encode(text[0]) + EncodeAll(text[1..])
  }

  /** The first character of a well-formed string, and how many bytes it takes. */
  predicate StartsWith(s: Bytes, n: nat) {
    && 1 <= n <= |s|
    && (n == 1 ==> s[0] < 0x80)
    && (n == 2 ==> 0xc2 <= s[0] <= 0xdf && Tail(s[1]))
    && (n == 3 ==> 0xe0 <= s[0] <= 0xef && Tail(s[1]) && Tail(s[2])
                   && (s[0] == 0xe0 ==> s[1] >= 0xa0) && (s[0] == 0xed ==> s[1] <= 0x9f))
    && (n == 4 ==> 0xf0 <= s[0] <= 0xf4 && Tail(s[1]) && Tail(s[2]) && Tail(s[3])
                   && (s[0] == 0xf0 ==> s[1] >= 0x90) && (s[0] == 0xf4 ==> s[1] <= 0x8f))
    && n <= 4
  }

  lemma Utf8Unfolds(s: Bytes, n: nat)
    requires StartsWith(s, n)
    ensures Utf8(s) <==> Utf8(s[n..])
  {
  }

  lemma EncodedStarts(u: Scalar, rest: Bytes)
    ensures StartsWith(Encode(u) + rest, |Encode(u)|) && (Encode(u) + rest)[|Encode(u)|..] == rest
  {
    var s := Encode(u) + rest;
    assert forall k :: 0 <= k < |Encode(u)| ==> s[k] == Encode(u)[k];
  }

  lemma Split2(a: nat, b: nat)
    requires b < 0x40
    ensures var u := a * 0x40 + b; u / 0x40 == a && u % 0x40 == b
  {
  }

  lemma Split3(a: nat, b: nat, c: nat)
    requires b < 0x40 && c < 0x40
    ensures var u := a * 0x1000 + b * 0x40 + c; u / 0x1000 == a && u / 0x40 % 0x40 == b && u % 0x40 == c
  {
    Split2(a * 0x40 + b, c);
    Split2(a, b);
    assert a * 0x1000 + b * 0x40 + c == (a * 0x40 + b) * 0x40 + c;
  }

  lemma Split4(a: nat, b: nat, c: nat, d: nat)
    requires b < 0x40 && c < 0x40 && d < 0x40
    ensures var u := a * 0x40000 + b * 0x1000 + c * 0x40 + d;
            u / 0x40000 == a && u / 0x1000 % 0x40 == b && u / 0x40 % 0x40 == c && u % 0x40 == d
  {
    Split2(a, b);
    Split3(a * 0x40 + b, c, d);
    assert a * 0x40000 + b * 0x1000 + c * 0x40 + d == (a * 0x40 + b) * 0x1000 + c * 0x40 + d;
  }

  lemma StartIsEncoded(s: Bytes, n: nat) returns (u: Scalar)
    requires StartsWith(s, n)
    ensures Encode(u) == s[..n]
  {
    if n == 1 {
      u := s[0];
    } else if n == 2 {
      u := Decoded2(s);
    } else if n == 3 {
      u := Decoded3(s);
    } else {
      u := Decoded4(s);
    }
  }

  lemma Decoded2(s: Bytes) returns (u: Scalar)
    requires StartsWith(s, 2)
    ensures Encode(u) == s[..2]
  {
    var a: int, b: int := s[0], s[1];
    Split2(a - 0xc0, b - 0x80);
    u := (a - 0xc0) * 0x40 + (b - 0x80);
  }

  lemma Decoded3(s: Bytes) returns (u: Scalar)
    requires StartsWith(s, 3)
    ensures Encode(u) == s[..3]
  {
    var a: int, b: int, c: int := s[0], s[1], s[2];
    Split3(a - 0xe0, b - 0x80, c - 0x80);
    u := (a - 0xe0) * 0x1000 + (b - 0x80) * 0x40 + (c - 0x80);
  }

  lemma Decoded4(s: Bytes) returns (u: Scalar)
    requires StartsWith(s, 4)
    ensures Encode(u) == s[..4]
  {
    var a: int, b: int, c: int, d: int := s[0], s[1], s[2], s[3];
    Split4(a - 0xf0, b - 0x80, c - 0x80, d - 0x80);
    u := (a - 0xf0) * 0x40000 + (b - 0x80) * 0x1000 + (c - 0x80) * 0x40 + (d - 0x80);
  }

  lemma SomeStart(s: Bytes) returns (n: nat)
    requires s != [] && Utf8(s)
    ensures StartsWith(s, n)
  {
    n := if s[0] < 0x80 then 1 else if s[0] <= 0xdf then 2 else if s[0] <= 0xef then 3 else 4;
  }

  lemma {:induction false} EncodedIsAccepted(text: seq<Scalar>)
    ensures Utf8(EncodeAll(text))
  {
    hide Encode, StartsWith;
    if text != [] {
      EncodedIsAccepted(text[1..]);
      EncodedStarts(text[0], EncodeAll(text[1..]));
      Utf8Unfolds(EncodeAll(text), |Encode(text[0])|);
    }
  }

  lemma {:induction false} AcceptedIsEncoded(s: Bytes) returns (text: seq<Scalar>)
    requires Utf8(s)
    ensures EncodeAll(text) == s
    decreases |s|
  {
    hide Encode, StartsWith, Utf8;
    if s == [] {
      text := [];
    } else {
      var n := SomeStart(s);
      assert 1 <= n <= |s| by { StartIsInside(s, n); }
      Utf8Unfolds(s, n);
      var u := StartIsEncoded(s, n);
      var rest := AcceptedIsEncoded(s[n..]);
      text := [u] + rest;
      assert text[1..] == rest && s[..n] + s[n..] == s;
    }
  }

  lemma StartIsInside(s: Bytes, n: nat)
    requires StartsWith(s, n)
    ensures 1 <= n <= |s|
  {
  }

  /** A string is accepted if and only if it is the encoding of some text. */
  lemma Utf8IsExact(s: Bytes)
    ensures Utf8(s) <==> exists text :: EncodeAll(text) == s
  {
    if Utf8(s) {
      var text := AcceptedIsEncoded(s);
      assert EncodeAll(text) == s;
    }
    if text :| EncodeAll(text) == s {
      EncodedIsAccepted(text);
    }
  }
}

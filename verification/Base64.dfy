/** Unpadded base64url (section 5 of RFC 4648) and the paper-message URI around it
    (lxmf/src/message.rs). Text is its ASCII bytes. */
module Base64 {
  import opened Octets

  const QR_MAX_STORAGE: nat := 2953
  const PAPER_MDU: nat := (QR_MAX_STORAGE - 6) * 6 / 8
  const SLASH: Byte := 0x2f
  const URI_PREFIX: Bytes := [0x6c, 0x78, 0x6d, 0x3a, 0x2f, 0x2f]

  type Sextet = v: int | 0 <= v < 64

  /** The alphabet: A-Z, a-z, 0-9, minus, underscore. */
  function Symbol(v: Sextet): Byte {
    if v < 26 then 0x41 + v
    else if v < 52 then 0x61 + v - 26
    else if v < 62 then 0x30 + v - 52
    else if v == 62 then 0x2d
    else 0x5f
  }

  /** The decoder also takes the plus and slash of the standard alphabet. */
  function SymbolValue(c: Byte): Option<Sextet> {
    if 0x41 <= c <= 0x5a then Some(c - 0x41)
    else if 0x61 <= c <= 0x7a then Some(c - 0x61 + 26)
    else if 0x30 <= c <= 0x39 then Some(c - 0x30 + 52)
    else if c == 0x2d || c == 0x2b then Some(62)
    else if c == 0x5f || c == SLASH then Some(63)
    else None
  }

  predicate Ignored(c: Byte) {
    c == 0x3d || c == 0x0a || c == 0x0d
  }

  // ---- Encoding -----------------------------------------------------------------------------

  /** `chunk.get(i).unwrap_or(&0)`. */
  function ByteAt(chunk: Bytes, i: nat): (v: nat)
    ensures v < 256
  {
    if i < |chunk| then chunk[i] else 0
  }

  function Group(chunk: Bytes): nat
    requires 1 <= |chunk| <= 3
  {
    ByteAt(chunk, 0) * 65536 + ByteAt(chunk, 1) * 256 + ByteAt(chunk, 2)
  }

  function Place(i: nat): (p: nat)
    ensures p > 0
  {
    if i == 0 then 262144 else if i == 1 then 4096 else if i == 2 then 64 else 1
  }

  function Digit(n: nat, i: nat): Sextet {
    n / Place(i) % 64
  }

  function EncodeChunk(chunk: Bytes): (text: Bytes)
    requires 1 <= |chunk| <= 3
    ensures |text| == |chunk| + 1
  {
    var n := Group(chunk);
    [Symbol(Digit(n, 0)), Symbol(Digit(n, 1))]
    + (if |chunk| > 1 then [Symbol(Digit(n, 2))] else [])
    + (if |chunk| > 2 then [Symbol(Digit(n, 3))] else [])
  }

  function Encoded(data: Bytes): Bytes
    decreases |data|
  {
    if data == [] then []
    else var k := Min(3, |data|); EncodeChunk(data[..k]) + Encoded(data[k..])
  }

  method Encode(data: Bytes) returns (out: Bytes)
    ensures out == Encoded(data)
  {
    hide EncodeChunk;
    out := [];
    var i := 0;
    assert data[0..] == data;
    while i < |data|
      invariant i <= |data|
      invariant out + Encoded(data[i..]) == Encoded(data)
    {
      var k := Min(3, |data| - i);
      var chunk := data[i..i + k];
      assert data[i..][..k] == chunk && data[i..][k..] == data[i + k..];
      assert Encoded(data[i..]) == EncodeChunk(chunk) + Encoded(data[i + k..]);
      Regrouped(out, EncodeChunk(chunk), Encoded(data[i + k..]));
      out := out + EncodeChunk(chunk);
      i := i + k;
    }
  }

  // ---- Decoding -----------------------------------------------------------------------------

  function Cleaned(text: Bytes): Bytes {
    if text == [] then [] else (if Ignored(text[0]) then [] else [text[0]]) + Cleaned(text[1..])
  }

  /** The value of the first `i` symbols of a chunk, if they all are symbols. */
  function Digits(chunk: Bytes, i: nat): Option<nat>
    requires i <= |chunk| <= 4
  {
    if i == 0 then Some(0)
    else
      match (Digits(chunk, i - 1), SymbolValue(chunk[i - 1]))
      case (Some(n), Some(v)) => Some(n + v * Place(i - 1))
      case _ => None
  }

  function DecodedChunk(n: nat, size: nat): Bytes {
    [n / 65536 % 256] + (if size > 2 then [n / 256 % 256] else []) + (if size > 3 then [n % 256] else [])
  }

  function DecodedChunks(text: Bytes): Option<Bytes>
    decreases |text|
  {
    if text == [] then Some([])
    else
      var k := Min(4, |text|);
      match (Digits(text[..k], k), DecodedChunks(text[k..]))
      case (Some(n), Some(rest)) => Some(DecodedChunk(n, k) + rest)
      case _ => None
  }

  function Decoded(text: Bytes): Option<Bytes> {
    DecodedChunks(Cleaned(text))
  }

  method Clean(text: Bytes) returns (cleaned: Bytes)
    ensures cleaned == Cleaned(text)
  {
    hide Ignored;
    cleaned := [];
    assert text[0..] == text && [] + Cleaned(text) == Cleaned(text);
    for i := 0 to |text|
      invariant cleaned + Cleaned(text[i..]) == Cleaned(text)
    {
      CleanedHead(text[i..]);
      assert text[i..][1..] == text[i + 1..];
      if !Ignored(text[i]) {
        Regrouped(cleaned, [text[i]], Cleaned(text[i + 1..]));
        cleaned := cleaned + [text[i]];
      }
    }
    assert text[|text|..] == [];
  }

  lemma CleanedHead(text: Bytes)
    requires text != []
    ensures Cleaned(text) == if Ignored(text[0]) then Cleaned(text[1..]) else [text[0]] + Cleaned(text[1..])
  {
    hide Ignored;
    assert [] + Cleaned(text[1..]) == Cleaned(text[1..]);
  }

  method Decode(text: Bytes) returns (r: Option<Bytes>)
    ensures r == Decoded(text)
  {
    hide Digits, DecodedChunk;
    var cleaned := Clean(text);
    var out: Bytes, i := [], 0;
    assert cleaned[0..] == cleaned;
    PrependedEmpty(DecodedChunks(cleaned));
    while i < |cleaned|
      invariant i <= |cleaned|
      invariant DecodedChunks(cleaned) == Prepended(out, DecodedChunks(cleaned[i..]))
    {
      var k := Min(4, |cleaned| - i);
      assert cleaned[i..][..k] == cleaned[i..i + k] && cleaned[i..][k..] == cleaned[i + k..];
      var n := ChunkDigits(cleaned[i..i + k]);
      if n.None? {
        return None;
      }
      PrependedTwice(out, DecodedChunk(n.value, k), DecodedChunks(cleaned[i + k..]));
      out := out + DecodedChunk(n.value, k);
      i := i + k;
    }
    assert cleaned[i..] == [] && out + [] == out;
    r := Some(out);
  }

  ghost function Prepended(out: Bytes, rest: Option<Bytes>): Option<Bytes> {
    if rest.Some? then Some(out + rest.value) else None
  }

  lemma PrependedEmpty(rest: Option<Bytes>)
    ensures Prepended([], rest) == rest
  {
    if rest.Some? {
      assert [] + rest.value == rest.value;
    }
  }

  lemma PrependedTwice(a: Bytes, b: Bytes, rest: Option<Bytes>)
    ensures Prepended(a + b, rest) == Prepended(a, Prepended(b, rest))
  {
    if rest.Some? {
      assert a + b + rest.value == a + (b + rest.value);
    }
  }

  method ChunkDigits(chunk: Bytes) returns (n: Option<nat>)
    requires |chunk| <= 4
    ensures n == Digits(chunk, |chunk|)
  {
    var sum := 0;
    for i := 0 to |chunk|
      invariant Digits(chunk, i) == Some(sum)
    {
      var v := SymbolValue(chunk[i]);
      if v.None? {
        DigitsFail(chunk, i + 1, |chunk|);
        return None;
      }
      sum := sum + v.value * Place(i);
    }
    n := Some(sum);
  }

  lemma {:induction false} DigitsFail(chunk: Bytes, i: nat, j: nat)
    requires i <= j <= |chunk| <= 4 && Digits(chunk, i) == None
    ensures Digits(chunk, j) == None
  {
    if i < j {
      DigitsFail(chunk, i, j - 1);
    }
  }

  // ---- Decoding undoes encoding ---------------------------------------------------------------

  predicate Plain(text: Bytes) {
    forall i :: 0 <= i < |text| ==> !Ignored(text[i]) && text[i] != SLASH
  }

  lemma SymbolRoundTrip(v: Sextet)
    ensures SymbolValue(Symbol(v)) == Some(v) && !Ignored(Symbol(v)) && Symbol(v) != SLASH
  {
  }

  /** Encoded text consists of alphabet symbols only: no padding, no line break, no slash. */
  lemma {:induction false} EncodedIsPlain(data: Bytes)
    ensures Plain(Encoded(data))
    decreases |data|
  {
    if data != [] {
      var k := Min(3, |data|);
      EncodedIsPlain(data[k..]);
    }
  }

  lemma {:induction false} CleanedPlain(text: Bytes)
    requires Plain(text)
    ensures Cleaned(text) == text
  {
    if text != [] {
      CleanedPlain(text[1..]);
    }
  }

  /** The symbols of a group, read back as digits, add up to the group: symbols left out were 0. */
  lemma DigitsOfChunk(chunk: Bytes)
    requires 1 <= |chunk| <= 3
    ensures Digits(EncodeChunk(chunk), |chunk| + 1) == Some(Group(chunk))
  {
    hide Symbol, SymbolValue, Group, Digits, Digit, EncodeChunk, Place;
    var n, text := Group(chunk), EncodeChunk(chunk);
    SymbolsOfChunk(chunk);
    GroupDigits(chunk);
    DigitsOfSymbols(text, n, Digit(n, 0), Digit(n, 1), Digit(n, 2), Digit(n, 3));
  }

  lemma SymbolsOfChunk(chunk: Bytes)
    requires 1 <= |chunk| <= 3
    ensures var n, text := Group(chunk), EncodeChunk(chunk);
            && text[0] == Symbol(Digit(n, 0)) && text[1] == Symbol(Digit(n, 1))
            && (|chunk| > 1 ==> text[2] == Symbol(Digit(n, 2)))
            && (|chunk| > 2 ==> text[3] == Symbol(Digit(n, 3)))
  {
  }

  lemma DigitsOfSymbols(text: Bytes, n: nat, a: Sextet, b: Sextet, c: Sextet, d: Sextet)
    requires 2 <= |text| <= 4 && text[0] == Symbol(a) && text[1] == Symbol(b)
    requires if |text| > 2 then text[2] == Symbol(c) else c == 0
    requires if |text| > 3 then text[3] == Symbol(d) else d == 0
    requires n == a * 262144 + b * 4096 + c * 64 + d
    ensures Digits(text, |text|) == Some(n)
  {
    hide Symbol, SymbolValue, Digits;
    DigitsStep(text, 0, a);
    DigitsStep(text, 1, b);
    if |text| > 2 {
      DigitsStep(text, 2, c);
    }
    if |text| > 3 {
      DigitsStep(text, 3, d);
    }
  }

  lemma DigitsStep(text: Bytes, i: nat, v: Sextet)
    requires i < |text| <= 4 && text[i] == Symbol(v)
    ensures Digits(text, 0) == Some(0)
    ensures Digits(text, i).Some? ==> Digits(text, i + 1) == Some(Digits(text, i).value + v * Place(i))
  {
    SymbolRoundTrip(v);
  }

  lemma GroupDigits(chunk: Bytes)
    requires 1 <= |chunk| <= 3
    ensures var n := Group(chunk);
            && n == Digit(n, 0) * 262144 + Digit(n, 1) * 4096 + Digit(n, 2) * 64 + Digit(n, 3)
            && (|chunk| < 3 ==> Digit(n, 3) == 0) && (|chunk| < 2 ==> Digit(n, 2) == 0)
  {
    hide ByteAt, Digit;
    Missing(chunk, 1);
    Missing(chunk, 2);
    RegroupBits(ByteAt(chunk, 0), ByteAt(chunk, 1), ByteAt(chunk, 2));
  }

  /** The 24 bits of three bytes, cut after 8 and 16 bits on one side and every 6 on the other. */
  lemma RegroupBits(b0: nat, b1: nat, b2: nat)
    requires b0 < 256 && b1 < 256 && b2 < 256
    ensures var n := b0 * 65536 + b1 * 256 + b2;
            && n == Digit(n, 0) * 262144 + Digit(n, 1) * 4096 + Digit(n, 2) * 64 + Digit(n, 3)
            && (b2 == 0 ==> Digit(n, 3) == 0) && (b2 == 0 && b1 == 0 ==> Digit(n, 2) == 0)
  {
    hide Digit;
    var n := b0 * 65536 + b1 * 256 + b2;
    var q0, r0, q1, r1, q2, r2 := b0 / 4, b0 % 4, b1 / 16, b1 % 16, b2 / 64, b2 % 64;
    assert b0 == 4 * q0 + r0 && b1 == 16 * q1 + r1 && b2 == 64 * q2 + r2;
    DigitAt(n, 0, 0, q0, r0 * 65536 + b1 * 256 + b2);
    DigitAt(n, 1, q0, r0 * 16 + q1, r1 * 256 + b2);
    DigitAt(n, 2, b0 * 16 + q1, r1 * 4 + q2, r2);
    DigitAt(n, 3, b0 * 1024 + b1 * 4 + q2, r2, 0);
  }

  lemma DigitAt(n: nat, i: nat, high: nat, v: nat, low: nat)
    requires i < 4 && low < Place(i) && v < 64 && n == (high * 64 + v) * Place(i) + low
    ensures Digit(n, i) == v
  {
    assert n / Place(i) == high * 64 + v;
  }

  lemma Missing(chunk: Bytes, i: nat)
    ensures i >= |chunk| ==> ByteAt(chunk, i) == 0
  {
  }

  lemma BytesOfGroup(chunk: Bytes)
    requires 1 <= |chunk| <= 3
    ensures DecodedChunk(Group(chunk), |chunk| + 1) == chunk
  {
    var n := Group(chunk);
    var b0, b1, b2 := ByteAt(chunk, 0), ByteAt(chunk, 1), ByteAt(chunk, 2);
    assert n % 256 == b2 && n / 256 == b0 * 256 + b1 && n / 65536 == b0;
  }

  lemma {:induction false} ChunksRoundTrip(data: Bytes)
    ensures DecodedChunks(Encoded(data)) == Some(data)
    decreases |data|
  {
    hide Digits, DecodedChunk, EncodeChunk, Group;
    if data != [] {
      var k := Min(3, |data|);
      var chunk, rest := EncodeChunk(data[..k]), Encoded(data[k..]);
      DigitsOfChunk(data[..k]);
      BytesOfGroup(data[..k]);
      ChunksRoundTrip(data[k..]);
      var size := Min(4, |Encoded(data)|);
      assert k < 3 ==> rest == [];
      assert Encoded(data)[..size] == chunk && Encoded(data)[size..] == rest;
      assert data[..k] + data[k..] == data;
    }
  }

  /** Decoding undoes encoding for every byte string. */
  lemma RoundTrip(data: Bytes)
    ensures Decoded(Encoded(data)) == Some(data)
  {
    EncodedIsPlain(data);
    CleanedPlain(Encoded(data));
    ChunksRoundTrip(data);
  }

  // ---- URIs -----------------------------------------------------------------------------------

  function Lower(c: Byte): Byte {
    if 0x41 <= c <= 0x5a then c + 32 else c
  }

  /** `uri.to_ascii_lowercase().starts_with("lxm://")`. */
  predicate HasUriPrefix(uri: Bytes) {
    |uri| >= |URI_PREFIX| && forall i :: 0 <= i < |URI_PREFIX| ==> Lower(uri[i]) == URI_PREFIX[i]
  }

  function WithoutSlashes(text: Bytes): Bytes {
    if text == [] then [] else (if text[0] == SLASH then [] else [text[0]]) + WithoutSlashes(text[1..])
  }

  function Uri(data: Bytes): Bytes {
    URI_PREFIX + Encoded(data)
  }

  /** The bytes a URI stands for; `None` for a foreign scheme or a character outside the alphabet. */
  function UriBytes(uri: Bytes): Option<Bytes> {
    if HasUriPrefix(uri) then Decoded(WithoutSlashes(uri[|URI_PREFIX|..])) else None
  }

  lemma {:induction false} PlainHasNoSlashes(text: Bytes)
    requires Plain(text)
    ensures WithoutSlashes(text) == text
  {
    if text != [] {
      PlainHasNoSlashes(text[1..]);
    }
  }

  /** Stripping slashes never damages a message: any text that is an encoding once its slashes are
      taken out, after any capitalisation of the scheme, stands for the encoded bytes. */
  lemma SlashesAreHarmless(data: Bytes, uri: Bytes)
    requires HasUriPrefix(uri) && WithoutSlashes(uri[|URI_PREFIX|..]) == Encoded(data)
    ensures UriBytes(uri) == Some(data)
  {
    RoundTrip(data);
  }

  lemma UriRoundTrip(data: Bytes)
    ensures UriBytes(Uri(data)) == Some(data)
  {
    EncodedIsPlain(data);
    PlainHasNoSlashes(Encoded(data));
    assert Uri(data)[|URI_PREFIX|..] == Encoded(data);
    SlashesAreHarmless(data, Uri(data));
  }

  lemma {:induction false} EncodedLength(data: Bytes)
    ensures |Encoded(data)| == (4 * |data| + 2) / 3
    decreases |data|
  {
    if data != [] {
      EncodedLength(data[Min(3, |data|)..]);
    }
  }

  /** The paper size limit is exactly the largest message whose URI fits a QR code. */
  lemma PaperMduIsExact(data: Bytes)
    ensures |data| <= PAPER_MDU <==> |Uri(data)| <= QR_MAX_STORAGE
  {
    EncodedLength(data);
  }
}

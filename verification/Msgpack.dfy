/** MessagePack values as LXMF carries them (`FieldValue` in lxmf/src/fields.rs), over the heads
    of the "Formats" section of the MessagePack specification. */
module Msgpack {
  import opened Octets

  const TWO_31: int := 0x8000_0000
  const TWO_32: int := 0x1_0000_0000
  const TWO_63: int := 0x8000_0000_0000_0000
  const TWO_64: int := 0x1_0000_0000_0000_0000

  /** Floats are their IEEE 754 bit patterns, strings their UTF-8 bytes. */
  datatype Value =
    | Nil
    | Bool(b: bool)
    | Int(i: int)
    | F64(bits: nat)
    | Str(utf8: Bytes)
    | Bin(data: Bytes)
    | Array(items: seq<Value>)
    | Map(entries: seq<Entry>)

  datatype Entry = Entry(key: Value, value: Value)

  datatype Error = Malformed | InvalidFormat | UnsupportedValue

  /** A parsed value with the input left over, or the error. */
  datatype Parsed<+T> = Parsed(value: T, rest: Bytes) | Failed(error: Error)

  /** Everything of a value that precedes its bytes or its children. */
  datatype Head =
    | NilHead
    | BoolHead(b: bool)
    | IntHead(i: int)
    | F64Head(bits: nat)
    | StrHead(n: nat)
    | BinHead(n: nat)
    | ArrayHead(n: nat)
    | MapHead(n: nat)

  // ---- Writing ----------------------------------------------------------------------------

  function WriteUint(n: nat): (b: Bytes)
    ensures |b| > 0
  {
    if n < 0x80 then [n]
    else if n < 0x100 then [0xcc] + BigEndian(n, 1)
    else if n < 0x10000 then [0xcd] + BigEndian(n, 2)
    else if n < TWO_32 then [0xce] + BigEndian(n, 4)
    else [0xcf] + BigEndian(n, 8)
  }

  function WriteSint(i: int): (b: Bytes)
    requires i < 0
    ensures |b| > 0
  {
    if i >= -32 then [0x100 + i]
    else if i >= -0x80 then [0xd0] + BigEndian(0x100 + i, 1)
    else if i >= -0x8000 then [0xd1] + BigEndian(0x10000 + i, 2)
    else if i >= -TWO_31 then [0xd2] + BigEndian(TWO_32 + i, 4)
    else [0xd3] + BigEndian((TWO_64 + i) % TWO_64, 8)
  }

  function WriteStrLen(n: nat): (b: Bytes)
    ensures |b| > 0
  {
    if n < 32 then [0xa0 + n]
    else if n < 0x100 then [0xd9] + BigEndian(n, 1)
    else if n < 0x10000 then [0xda] + BigEndian(n, 2)
    else [0xdb] + BigEndian(n, 4)
  }

  function WriteBinLen(n: nat): (b: Bytes)
    ensures 0 < |b| <= 5
  {
    if n < 0x100 then [0xc4] + BigEndian(n, 1)
    else if n < 0x10000 then [0xc5] + BigEndian(n, 2)
    else [0xc6] + BigEndian(n, 4)
  }

  function WriteArrayLen(n: nat): (b: Bytes)
    ensures 0 < |b| <= 5
  {
    if n < 16 then [0x90 + n]
    else if n < 0x10000 then [0xdc] + BigEndian(n, 2)
    else [0xdd] + BigEndian(n, 4)
  }

  function WriteMapLen(n: nat): (b: Bytes)
    ensures |b| > 0
  {
    if n < 16 then [0x80 + n]
    else if n < 0x10000 then [0xde] + BigEndian(n, 2)
    else [0xdf] + BigEndian(n, 4)
  }

  function WriteF64(bits: nat): (b: Bytes)
    ensures |b| == 9
  {
    [0xcb] + BigEndian(bits, 8)
  }

  function WriteInt(i: int): (b: Bytes)
    ensures |b| > 0
  {
    if i < 0 then WriteSint(i) else WriteUint(i)
  }

  // ---- Reading ----------------------------------------------------------------------------

  /** An unsigned field of `width` bytes. */
  function ReadUint(b: Bytes, width: nat): (r: Parsed<nat>)
    ensures r.Parsed? ==> |r.rest| == |b| - width && r.value < Pow256(width)
  {
    if |b| < width then Failed(Malformed)
    else
      FromBigEndianBound(b[..width]);
      Parsed(FromBigEndian(b[..width]), b[width..])
  }

  function SignExtend(n: nat, width: nat): int {
    if 2 * n < Pow256(width) then n else n - Pow256(width)
  }

  /** `f32 as f64` on bit patterns. A subnormal is shifted up until its top bit is implicit. */
  function Widen(bits: nat): nat
    requires bits < TWO_32
  {
    var sign := bits / 0x8000_0000 * TWO_63;
    var exponent := bits / 0x80_0000 % 0x100;
    var mantissa := bits % 0x80_0000;
    if exponent == 0xff then
      sign + 0x7ff * 0x10_0000_0000_0000
        + (if mantissa == 0 then 0 else 0x8_0000_0000_0000 + mantissa % 0x40_0000 * 0x2000_0000)
    else if exponent > 0 then
      sign + (exponent + (1023 - 127)) * 0x10_0000_0000_0000 + mantissa * 0x2000_0000
    else if mantissa == 0 then sign
    else sign + WidenSubnormal(mantissa, 1023 - 126)
  }

  function WidenSubnormal(mantissa: nat, exponent: nat): nat
    requires 0 < mantissa < 0x100_0000 && exponent >= 800
    decreases 0x100_0000 - mantissa
  {
    if mantissa >= 0x80_0000 || exponent == 800 then exponent * 0x10_0000_0000_0000 + mantissa % 0x80_0000 * 0x2000_0000
    else WidenSubnormal(2 * mantissa, exponent - 1)
  }

  function IntField(r: Parsed<nat>, width: nat, signed: bool): Parsed<Head> {
    match r
    case Failed(error) => Failed(error)
    case Parsed(n, rest) =>
      var i := if signed then SignExtend(n, width) else n;
      if i < TWO_63 then Parsed(IntHead(i), rest) else Failed(Malformed)
  }

  function SizeField(r: Parsed<nat>, marker: Byte): Parsed<Head> {
    match r
    case Failed(error) => Failed(error)
    case Parsed(n, rest) =>
      Parsed(if marker <= 0xc6 then BinHead(n)
             else if marker <= 0xdb then StrHead(n)
             else if marker <= 0xdd then ArrayHead(n)
             else MapHead(n), rest)
  }

  function ReadHead(b: Bytes): Parsed<Head> {
    if b == [] then Failed(Malformed)
    else
      var m, t := b[0], b[1..];
      if m < 0x80 then Parsed(IntHead(m), t)
      else if m < 0x90 then Parsed(MapHead(m - 0x80), t)
      else if m < 0xa0 then Parsed(ArrayHead(m - 0x90), t)
      else if m < 0xc0 then Parsed(StrHead(m - 0xa0), t)
      else if m >= 0xe0 then Parsed(IntHead(m as int - 0x100), t)
      else if m == 0xc0 then Parsed(NilHead, t)
      else if m == 0xc2 then Parsed(BoolHead(false), t)
      else if m == 0xc3 then Parsed(BoolHead(true), t)
      else if 0xc4 <= m <= 0xc6 then SizeField(ReadUint(t, [1, 2, 4][m - 0xc4]), m)
      else if m == 0xca then
        (match ReadUint(t, 4)
         case Failed(error) => Failed(error)
         case Parsed(bits, rest) => Parsed(F64Head(Widen(bits)), rest))
      else if m == 0xcb then
        (match ReadUint(t, 8)
         case Failed(error) => Failed(error)
         case Parsed(bits, rest) => Parsed(F64Head(bits), rest))
      else if 0xcc <= m <= 0xcf then var w := [1, 2, 4, 8][m - 0xcc]; IntField(ReadUint(t, w), w, false)
      else if 0xd0 <= m <= 0xd3 then var w := [1, 2, 4, 8][m - 0xd0]; IntField(ReadUint(t, w), w, true)
      else if 0xd9 <= m <= 0xdb then SizeField(ReadUint(t, [1, 2, 4][m - 0xd9]), m)
      else if 0xdc <= m <= 0xdd then SizeField(ReadUint(t, [2, 4][m - 0xdc]), m)
      else if 0xde <= m <= 0xdf then SizeField(ReadUint(t, [2, 4][m - 0xde]), m)
      else Failed(UnsupportedValue)
  }

  lemma Powers()
    ensures Pow256(1) == 0x100 && Pow256(2) == 0x10000 && Pow256(4) == TWO_32 && Pow256(8) == TWO_64
  {
    assert Pow256(4) == 256 * 256 * Pow256(2);
    assert Pow256(8) == 256 * 256 * 256 * 256 * Pow256(4);
  }

  /** A field written in `width` bytes is read back, with the rest untouched. */
  lemma ReadUintRoundTrip(m: Byte, n: nat, width: nat, suffix: Bytes)
    requires n < Pow256(width)
    ensures var b := [m] + BigEndian(n, width) + suffix;
            b[0] == m && ReadUint(b[1..], width) == Parsed(n, suffix)
  {
    hide Pow256, BigEndian, FromBigEndian;
    var b := [m] + BigEndian(n, width) + suffix;
    assert b[1..] == BigEndian(n, width) + suffix;
    assert b[1..][..width] == BigEndian(n, width);
    assert b[1..][width..] == suffix;
    BigEndianRoundTrip(n, width);
  }

  lemma IntHeadRoundTrip(i: int, suffix: Bytes)
    requires -TWO_63 <= i < TWO_63
    ensures ReadHead(WriteInt(i) + suffix) == Parsed(IntHead(i), suffix)
  {
    hide BigEndian, ReadUint, Pow256;
    Powers();
    var b := WriteInt(i) + suffix;
    if 0 <= i < 0x80 || -32 <= i < 0 {
      assert b[1..] == suffix;
    } else {
      var m := WriteInt(i)[0];
      var w := if 0xcc <= m <= 0xcf then [1, 2, 4, 8][m - 0xcc] else [1, 2, 4, 8][m - 0xd0];
      var n := if i >= 0 then i else Pow256(w) + i;
      assert i < 0 ==> (TWO_64 + i) % TWO_64 == TWO_64 + i;
      assert b == [m] + BigEndian(n, w) + suffix;
      ReadUintRoundTrip(m, n, w, suffix);
    }
  }

  lemma StrHeadRoundTrip(n: nat, suffix: Bytes)
    requires n < TWO_32
    ensures ReadHead(WriteStrLen(n) + suffix) == Parsed(StrHead(n), suffix)
  {
    hide BigEndian, ReadUint, Pow256;
    Powers();
    var b := WriteStrLen(n) + suffix;
    if n < 32 {
      assert b[1..] == suffix;
    } else {
      var m := WriteStrLen(n)[0];
      var w := [1, 2, 4][m - 0xd9];
      assert b == [m] + BigEndian(n, w) + suffix;
      ReadUintRoundTrip(m, n, w, suffix);
    }
  }

  lemma BinHeadRoundTrip(n: nat, suffix: Bytes)
    requires n < TWO_32
    ensures ReadHead(WriteBinLen(n) + suffix) == Parsed(BinHead(n), suffix)
  {
    hide BigEndian, ReadUint, Pow256;
    Powers();
    var m := WriteBinLen(n)[0];
    var w := [1, 2, 4][m - 0xc4];
    assert WriteBinLen(n) + suffix == [m] + BigEndian(n, w) + suffix;
    ReadUintRoundTrip(m, n, w, suffix);
  }

  lemma ArrayHeadRoundTrip(n: nat, suffix: Bytes)
    requires n < TWO_32
    ensures ReadHead(WriteArrayLen(n) + suffix) == Parsed(ArrayHead(n), suffix)
  {
    hide BigEndian, ReadUint, Pow256;
    Powers();
    var b := WriteArrayLen(n) + suffix;
    if n < 16 {
      assert b[1..] == suffix;
    } else {
      var m := WriteArrayLen(n)[0];
      var w := [2, 4][m - 0xdc];
      assert b == [m] + BigEndian(n, w) + suffix;
      ReadUintRoundTrip(m, n, w, suffix);
    }
  }

  lemma MapHeadRoundTrip(n: nat, suffix: Bytes)
    requires n < TWO_32
    ensures ReadHead(WriteMapLen(n) + suffix) == Parsed(MapHead(n), suffix)
  {
    hide BigEndian, ReadUint, Pow256;
    Powers();
    var b := WriteMapLen(n) + suffix;
    if n < 16 {
      assert b[1..] == suffix;
    } else {
      var m := WriteMapLen(n)[0];
      var w := [2, 4][m - 0xde];
      assert b == [m] + BigEndian(n, w) + suffix;
      ReadUintRoundTrip(m, n, w, suffix);
    }
  }

  lemma F64HeadRoundTrip(bits: nat, suffix: Bytes)
    requires bits < TWO_64
    ensures ReadHead(WriteF64(bits) + suffix) == Parsed(F64Head(bits), suffix)
  {
    hide BigEndian, ReadUint, Pow256;
    Powers();
    assert WriteF64(bits) + suffix == [0xcb] + BigEndian(bits, 8) + suffix;
    ReadUintRoundTrip(0xcb, bits, 8, suffix);
  }

  // ---- Values -----------------------------------------------------------------------------

  /** `len() as u32`. */
  function Len32(n: nat): nat {
    n % TWO_32
  }

  function Pack(v: Value): (b: Bytes)
    ensures |b| > 0
    decreases v, 1
  {
    match v
    case Nil => [0xc0]
    case Bool(b) => if b then [0xc3] else [0xc2]
    case Int(i) => WriteInt(i)
    case F64(bits) => WriteF64(bits)
    case Str(s) => WriteStrLen(Len32(|s|)) + s
    case Bin(d) => WriteBinLen(Len32(|d|)) + d
    case Array(items) => WriteArrayLen(Len32(|items|)) + PackItems(items)
    case Map(entries) => WriteMapLen(Len32(|entries|)) + PackEntries(entries)
  }

  function PackItems(items: seq<Value>): Bytes
    decreases items, 0
  {
    if items == [] then [] else Pack(items[0]) + PackItems(items[1..])
  }

  function PackEntries(entries: seq<Entry>): (b: Bytes)
    ensures |b| >= 2 * |entries|
    decreases entries, 0
  {
    if entries == [] then [] else PackEntry(entries[0]) + PackEntries(entries[1..])
  }

  function PackEntry(e: Entry): (b: Bytes)
    ensures |b| >= 2
    decreases e, 2
  {
    Pack(e.key) + Pack(e.value)
  }

  /** What the Rust type can hold (64-bit integers and floats, UTF-8 strings), with every length
      small enough for the 32-bit length fields. */
  predicate WellFormed(v: Value)
    decreases v
  {
    match v
    case Nil => true
    case Bool(_) => true
    case Int(i) => -TWO_63 <= i < TWO_63
    case F64(bits) => bits < TWO_64
    case Str(s) => Utf8(s) && |s| < TWO_32
    case Bin(d) => |d| < TWO_32
    case Array(items) => |items| < TWO_32 && forall k :: 0 <= k < |items| ==> WellFormed(items[k])
    case Map(entries) =>
      |entries| < TWO_32 && forall k :: 0 <= k < |entries| ==>
        WellFormed(entries[k].key) && WellFormed(entries[k].value)
  }

  /** Well-formed UTF-8, as `String::from_utf8` decides it (Table 3-7 of the Unicode Standard). */
  predicate Utf8(s: Bytes)
    decreases |s|
  {
    if s == [] then true
    else if s[0] < 0x80 then Utf8(s[1..])
    else if 0xc2 <= s[0] <= 0xdf then |s| >= 2 && Tail(s[1]) && Utf8(s[2..])
    else if 0xe0 <= s[0] <= 0xef then
      && |s| >= 3 && Tail(s[1]) && Tail(s[2])
      && (s[0] == 0xe0 ==> s[1] >= 0xa0) && (s[0] == 0xed ==> s[1] <= 0x9f)
      && Utf8(s[3..])
    else if 0xf0 <= s[0] <= 0xf4 then
      && |s| >= 4 && Tail(s[1]) && Tail(s[2]) && Tail(s[3])
      && (s[0] == 0xf0 ==> s[1] >= 0x90) && (s[0] == 0xf4 ==> s[1] <= 0x8f)
      && Utf8(s[4..])
    else false
  }

  predicate Tail(b: Byte) {
    0x80 <= b <= 0xbf
  }

  function TakeBytes(n: nat, b: Bytes): Parsed<Bytes> {
    if |b| < n then Failed(InvalidFormat) else Parsed(b[..n], b[n..])
  }

  function Unpack(b: Bytes): (r: Parsed<Value>)
    ensures r.Parsed? ==> |r.rest| < |b|
    decreases |b|, 0
  {
    match ReadHead(b)
    case Failed(error) => Failed(error)
    case Parsed(head, rest) =>
      ReadHeadConsumes(b);
      match head
      case NilHead => Parsed(Nil, rest)
      case BoolHead(v) => Parsed(Bool(v), rest)
      case IntHead(i) => Parsed(Int(i), rest)
      case F64Head(bits) => Parsed(F64(bits), rest)
      case StrHead(n) =>
        (match TakeBytes(n, rest)
         case Failed(error) => Failed(error)
         case Parsed(s, rest) => if Utf8(s) then Parsed(Str(s), rest) else Failed(InvalidFormat))
      case BinHead(n) =>
        (match TakeBytes(n, rest)
         case Failed(error) => Failed(error)
         case Parsed(d, rest) => Parsed(Bin(d), rest))
      case ArrayHead(n) =>
        (match UnpackItems(n, rest)
         case Failed(error) => Failed(error)
         case Parsed(items, rest) => Parsed(Array(items), rest))
      case MapHead(n) =>
        if 2 * n > |rest| then Failed(InvalidFormat)
        else match UnpackEntries(n, rest)
             case Failed(error) => Failed(error)
             case Parsed(entries, rest) => Parsed(Map(entries), rest)
  }

  function UnpackItems(n: nat, b: Bytes): (r: Parsed<seq<Value>>)
    ensures r.Parsed? ==> |r.rest| <= |b| && |r.value| == n
    decreases |b|, 1
  {
    if n == 0 then Parsed([], b)
    else match Unpack(b)
         case Failed(error) => Failed(error)
         case Parsed(v, rest) =>
           match UnpackItems(n - 1, rest)
           case Failed(error) => Failed(error)
           case Parsed(items, rest) => Parsed([v] + items, rest)
  }

  function UnpackEntries(n: nat, b: Bytes): (r: Parsed<seq<Entry>>)
    ensures r.Parsed? ==> |r.rest| <= |b| && |r.value| == n
    decreases |b|, 1
  {
    if n == 0 then Parsed([], b)
    else match Unpack(b)
         case Failed(error) => Failed(error)
         case Parsed(key, rest) =>
           match Unpack(rest)
           case Failed(error) => Failed(error)
           case Parsed(value, rest) =>
             match UnpackEntries(n - 1, rest)
             case Failed(error) => Failed(error)
             case Parsed(entries, rest) => Parsed([Entry(key, value)] + entries, rest)
  }

  lemma ReadHeadConsumes(b: Bytes)
    ensures ReadHead(b).Parsed? ==> |ReadHead(b).rest| < |b|
  {
  }

  // ---- Unpacking undoes packing -----------------------------------------------------------

  lemma BytesRoundTrip(d: Bytes, suffix: Bytes)
    requires |d| < TWO_32
    ensures Unpack(Pack(Bin(d)) + suffix) == Parsed(Bin(d), suffix)
    ensures Utf8(d) ==> Unpack(Pack(Str(d)) + suffix) == Parsed(Str(d), suffix)
  {
    hide ReadHead, WriteStrLen, WriteBinLen, Utf8, UnpackItems, UnpackEntries;
    assert (d + suffix)[..|d|] == d && (d + suffix)[|d|..] == suffix;
    assert Pack(Bin(d)) + suffix == WriteBinLen(|d|) + (d + suffix);
    BinHeadRoundTrip(|d|, d + suffix);
    assert Pack(Str(d)) + suffix == WriteStrLen(|d|) + (d + suffix);
    StrHeadRoundTrip(|d|, d + suffix);
  }

  lemma ScalarRoundTrip(v: Value, suffix: Bytes)
    requires WellFormed(v) && (v.Nil? || v.Bool? || v.Int? || v.F64?)
    ensures Unpack(Pack(v) + suffix) == Parsed(v, suffix)
  {
    hide ReadHead, WriteInt, WriteF64, UnpackItems, UnpackEntries;
    match v
    case Nil => SingleByte(0xc0, suffix);
    case Bool(b) => SingleByte(if b then 0xc3 else 0xc2, suffix);
    case Int(i) => IntHeadRoundTrip(i, suffix);
    case F64(bits) => F64HeadRoundTrip(bits, suffix);
  }

  lemma ArrayFromItems(items: seq<Value>, suffix: Bytes)
    requires |items| < TWO_32
    requires UnpackItems(|items|, PackItems(items) + suffix) == Parsed(items, suffix)
    ensures Unpack(Pack(Array(items)) + suffix) == Parsed(Array(items), suffix)
  {
    hide ReadHead, WriteArrayLen, PackItems, UnpackItems, UnpackEntries;
    assert Pack(Array(items)) + suffix == WriteArrayLen(|items|) + (PackItems(items) + suffix);
    ArrayHeadRoundTrip(|items|, PackItems(items) + suffix);
  }

  lemma MapFromEntries(entries: seq<Entry>, suffix: Bytes)
    requires |entries| < TWO_32
    requires UnpackEntries(|entries|, PackEntries(entries) + suffix) == Parsed(entries, suffix)
    ensures Unpack(Pack(Map(entries)) + suffix) == Parsed(Map(entries), suffix)
  {
    hide ReadHead, WriteMapLen, PackEntries, UnpackItems, UnpackEntries;
    assert Pack(Map(entries)) + suffix == WriteMapLen(|entries|) + (PackEntries(entries) + suffix);
    MapHeadRoundTrip(|entries|, PackEntries(entries) + suffix);
  }

  /** For every well-formed value and whatever follows it: unpacking the packed bytes gives the
      value back and leaves exactly what follows. */
  lemma {:induction false} RoundTrip(v: Value, suffix: Bytes)
    requires WellFormed(v)
    ensures Unpack(Pack(v) + suffix) == Parsed(v, suffix)
    decreases v, 1
  {
    hide Pack, Unpack, Utf8;
    match v
    case Str(s) => BytesRoundTrip(s, suffix);
    case Bin(d) => BytesRoundTrip(d, suffix);
    case Array(items) =>
      ItemsRoundTrip(items, suffix);
      ArrayFromItems(items, suffix);
    case Map(entries) =>
      EntriesRoundTrip(entries, suffix);
      MapFromEntries(entries, suffix);
    case _ => ScalarRoundTrip(v, suffix);
  }

  lemma SingleByte(m: Byte, suffix: Bytes)
    ensures m == 0xc0 ==> ReadHead([m] + suffix) == Parsed(NilHead, suffix)
    ensures m == 0xc2 ==> ReadHead([m] + suffix) == Parsed(BoolHead(false), suffix)
    ensures m == 0xc3 ==> ReadHead([m] + suffix) == Parsed(BoolHead(true), suffix)
  {
    assert ([m] + suffix)[1..] == suffix;
  }

  lemma {:induction false} ItemsRoundTrip(items: seq<Value>, suffix: Bytes)
    requires forall k :: 0 <= k < |items| ==> WellFormed(items[k])
    ensures UnpackItems(|items|, PackItems(items) + suffix) == Parsed(items, suffix)
    decreases items, 0
  {
    hide Pack, Unpack, WellFormed;
    if items == [] {
      assert PackItems(items) + suffix == suffix;
    } else {
      var tail := PackItems(items[1..]) + suffix;
      RoundTrip(items[0], tail);
      ItemsRoundTrip(items[1..], suffix);
      UnpackOneMore(Pack(items[0]) + tail, items[0], tail, items[1..], suffix);
      PackItemsHead(items, suffix);
      assert [items[0]] + items[1..] == items;
    }
  }

  lemma PackItemsHead(items: seq<Value>, suffix: Bytes)
    requires items != []
    ensures PackItems(items) + suffix == Pack(items[0]) + (PackItems(items[1..]) + suffix)
  {
    hide Pack;
    assert PackItems(items) == Pack(items[0]) + PackItems(items[1..]);
    Regrouped(Pack(items[0]), PackItems(items[1..]), suffix);
  }

  lemma PackEntriesHead(entries: seq<Entry>, suffix: Bytes)
    requires entries != []
    ensures PackEntries(entries) + suffix == PackEntry(entries[0]) + (PackEntries(entries[1..]) + suffix)
  {
    hide PackEntry;
    assert PackEntries(entries) == PackEntry(entries[0]) + PackEntries(entries[1..]);
    Regrouped(PackEntry(entries[0]), PackEntries(entries[1..]), suffix);
  }

  lemma UnpackOneMore(b: Bytes, first: Value, tail: Bytes, others: seq<Value>, suffix: Bytes)
    requires Unpack(b) == Parsed(first, tail) && UnpackItems(|others|, tail) == Parsed(others, suffix)
    ensures UnpackItems(|others| + 1, b) == Parsed([first] + others, suffix)
  {
    hide Unpack;
  }

  lemma {:induction false} EntriesRoundTrip(entries: seq<Entry>, suffix: Bytes)
    requires forall k :: 0 <= k < |entries| ==> WellFormed(entries[k].key) && WellFormed(entries[k].value)
    ensures UnpackEntries(|entries|, PackEntries(entries) + suffix) == Parsed(entries, suffix)
    decreases entries, 0
  {
    hide Pack, Unpack, PackEntry, WellFormed;
    if entries == [] {
      assert PackEntries(entries) + suffix == suffix;
    } else {
      var tail := PackEntries(entries[1..]) + suffix;
      EntryRoundTrip(entries[0], tail);
      EntriesRoundTrip(entries[1..], suffix);
      UnpackOneMoreEntry(PackEntry(entries[0]) + tail, entries[0], tail, entries[1..], suffix);
      PackEntriesHead(entries, suffix);
      assert [entries[0]] + entries[1..] == entries;
    }
  }

  lemma UnpackOneMoreEntry(b: Bytes, first: Entry, tail: Bytes, others: seq<Entry>, suffix: Bytes)
    requires Unpack(b).Parsed? && Unpack(b).value == first.key && Unpack(Unpack(b).rest) == Parsed(first.value, tail)
    requires UnpackEntries(|others|, tail) == Parsed(others, suffix)
    ensures UnpackEntries(|others| + 1, b) == Parsed([first] + others, suffix)
  {
    hide Unpack;
  }

  lemma {:induction false} EntryRoundTrip(e: Entry, suffix: Bytes)
    requires WellFormed(e.key) && WellFormed(e.value)
    ensures var key := Unpack(PackEntry(e) + suffix);
            key.Parsed? && key.value == e.key && Unpack(key.rest) == Parsed(e.value, suffix)
    decreases e, 2
  {
    hide Pack, Unpack, WellFormed;
    assert PackEntry(e) + suffix == Pack(e.key) + (Pack(e.value) + suffix);
    RoundTrip(e.key, Pack(e.value) + suffix);
    RoundTrip(e.value, suffix);
  }

  /** No packed value is a prefix of another: equal bytes up to the end of one value mean equal
      values and equal remainders. */
  lemma PrefixFree(v: Value, w: Value, after: Bytes, beyond: Bytes)
    requires WellFormed(v) && WellFormed(w) && Pack(v) + after == Pack(w) + beyond
    ensures v == w && after == beyond
  {
    hide Pack, Unpack, WellFormed;
    RoundTrip(v, after);
    RoundTrip(w, beyond);
  }

  // ---- Everything unpacked is well-formed ---------------------------------------------------

  lemma WidenFits(bits: nat)
    requires bits < TWO_32
    ensures Widen(bits) < TWO_64
  {
    var mantissa := bits % 0x80_0000;
    if bits / 0x80_0000 % 0x100 == 0 && mantissa != 0 {
      WidenSubnormalFits(mantissa, 1023 - 126);
    }
  }

  lemma {:induction false} WidenSubnormalFits(mantissa: nat, exponent: nat)
    requires 0 < mantissa < 0x100_0000 && 800 <= exponent <= 897
    ensures WidenSubnormal(mantissa, exponent) < TWO_63
    decreases 0x100_0000 - mantissa
  {
    if mantissa < 0x80_0000 && exponent > 800 {
      WidenSubnormalFits(2 * mantissa, exponent - 1);
    }
  }

  predicate HeadFits(h: Head) {
    match h
    case NilHead => true
    case BoolHead(_) => true
    case IntHead(i) => -TWO_63 <= i < TWO_63
    case F64Head(bits) => bits < TWO_64
    case StrHead(n) => n < TWO_32
    case BinHead(n) => n < TWO_32
    case ArrayHead(n) => n < TWO_32
    case MapHead(n) => n < TWO_32
  }

  lemma ReadHeadFits(b: Bytes)
    ensures ReadHead(b).Parsed? ==> HeadFits(ReadHead(b).value)
  {
    hide Widen, FromBigEndian, Pow256;
    Powers();
    if b != [] && b[0] == 0xca && ReadUint(b[1..], 4).Parsed? {
      WidenFits(ReadUint(b[1..], 4).value);
    }
  }

  /** Whatever `Unpack` accepts lies in the domain of `RoundTrip`: packing it again and unpacking
      that gives the same value, even if the received bytes were not the minimal encoding. */
  lemma {:induction false} UnpackedIsWellFormed(b: Bytes)
    ensures Unpack(b).Parsed? ==> WellFormed(Unpack(b).value)
    decreases |b|, 0
  {
    hide ReadHead, Utf8, UnpackItems, UnpackEntries;
    if ReadHead(b).Parsed? {
      ReadHeadFits(b);
      ReadHeadConsumes(b);
      var rest := ReadHead(b).rest;
      match ReadHead(b).value {
        case ArrayHead(n) => UnpackedItemsAreWellFormed(n, rest);
        case MapHead(n) => UnpackedEntriesAreWellFormed(n, rest);
        case _ =>
      }
    }
  }

  predicate AllWellFormed(items: seq<Value>) {
    forall k :: 0 <= k < |items| ==> WellFormed(items[k])
  }

  predicate EntriesWellFormed(entries: seq<Entry>) {
    forall k :: 0 <= k < |entries| ==> WellFormed(entries[k].key) && WellFormed(entries[k].value)
  }

  lemma NoneWellFormed()
    ensures AllWellFormed([]) && EntriesWellFormed([])
  {
  }

  lemma ConsIsWellFormed(first: Value, others: seq<Value>)
    requires WellFormed(first) && AllWellFormed(others)
    ensures AllWellFormed([first] + others)
  {
    hide WellFormed;
    forall k | 0 <= k < |[first] + others| ensures WellFormed(([first] + others)[k]) {
      assert ([first] + others)[k] == if k == 0 then first else others[k - 1];
    }
  }

  lemma ConsEntryIsWellFormed(first: Entry, others: seq<Entry>)
    requires WellFormed(first.key) && WellFormed(first.value) && EntriesWellFormed(others)
    ensures EntriesWellFormed([first] + others)
  {
    hide WellFormed;
    var all := [first] + others;
    forall k | 0 <= k < |all| ensures WellFormed(all[k].key) && WellFormed(all[k].value) {
      assert all[k] == if k == 0 then first else others[k - 1];
    }
  }

  lemma {:induction false} UnpackedItemsAreWellFormed(n: nat, b: Bytes)
    ensures var r := UnpackItems(n, b);
            r.Parsed? ==> AllWellFormed(r.value)
    decreases |b|, 1
  {
    hide Unpack, AllWellFormed;
    NoneWellFormed();
    if n > 0 && Unpack(b).Parsed? {
      UnpackedIsWellFormed(b);
      UnpackedItemsAreWellFormed(n - 1, Unpack(b).rest);
      var others := UnpackItems(n - 1, Unpack(b).rest);
      if others.Parsed? {
        ConsIsWellFormed(Unpack(b).value, others.value);
      }
    }
  }

  lemma {:induction false} UnpackedEntriesAreWellFormed(n: nat, b: Bytes)
    ensures var r := UnpackEntries(n, b);
            r.Parsed? ==> EntriesWellFormed(r.value)
    decreases |b|, 1
  {
    hide Unpack, EntriesWellFormed;
    NoneWellFormed();
    if n > 0 && Unpack(b).Parsed? && Unpack(Unpack(b).rest).Parsed? {
      UnpackedIsWellFormed(b);
      UnpackedIsWellFormed(Unpack(b).rest);
      UnpackedEntriesAreWellFormed(n - 1, Unpack(Unpack(b).rest).rest);
      var others := UnpackEntries(n - 1, Unpack(Unpack(b).rest).rest);
      if others.Parsed? {
        ConsEntryIsWellFormed(Entry(Unpack(b).value, Unpack(Unpack(b).rest).value), others.value);
      }
    }
  }

  // ---- The encoding is the shortest -----------------------------------------------------------

  /** The first byte of an encoding, by the table of formats of the MessagePack specification. */
  lemma FirstByteIs(v: Value)
    requires WellFormed(v)
    ensures var m := Pack(v)[0];
            match v
            case Nil => m == 0xc0
            case Bool(b) => m == if b then 0xc3 else 0xc2
            case Int(i) =>
              if 0 <= i then (if i <= 0x7f then m == i else 0xcc <= m <= 0xcf)
              else (if i >= -32 then m == 0x100 + i else 0xd0 <= m <= 0xd3)
            case F64(_) => m == 0xcb
            case Str(s) => if |s| <= 31 then m == 0xa0 + |s| else 0xd9 <= m <= 0xdb
            case Bin(_) => 0xc4 <= m <= 0xc6
            case Array(items) => if |items| <= 15 then m == 0x90 + |items| else 0xdc <= m <= 0xdd
            case Map(entries) => if |entries| <= 15 then m == 0x80 + |entries| else 0xde <= m <= 0xdf
  {
    hide BigEndian, Utf8, PackItems, PackEntries;
  }

  /** The bytes `pack` writes for a head. */
  function HeadBytes(h: Head): Bytes {
    match h
    case NilHead => [0xc0]
    case BoolHead(b) => if b then [0xc3] else [0xc2]
    case IntHead(i) => WriteInt(i)
    case F64Head(bits) => WriteF64(bits)
    case StrHead(n) => WriteStrLen(n)
    case BinHead(n) => WriteBinLen(n)
    case ArrayHead(n) => WriteArrayLen(n)
    case MapHead(n) => WriteMapLen(n)
  }

  /** No integer head that is read as `i` is shorter than the one written for it, and what is not
      negative is written as unsigned. */
  lemma IntHeadIsShortest(b: Bytes)
    requires ReadHead(b).Parsed? && ReadHead(b).value.IntHead?
    ensures var r := ReadHead(b); |WriteInt(r.value.i)| + |r.rest| <= |b|
    ensures var i := ReadHead(b).value.i;
            i >= 0 && |WriteInt(i)| > 1 ==> 0xcc <= WriteInt(i)[0] <= 0xcf
  {
    hide Widen, FromBigEndian, Pow256;
    Powers();
  }

  lemma SizeHeadIsShortest(b: Bytes)
    requires ReadHead(b).Parsed?
    requires var h := ReadHead(b).value; h.StrHead? || h.BinHead? || h.ArrayHead? || h.MapHead?
    ensures var r := ReadHead(b); |HeadBytes(r.value)| + |r.rest| <= |b|
  {
    hide Widen, FromBigEndian, Pow256;
    Powers();
  }

  /** Only a 32-bit float, which is widened, is written longer than it was read. */
  lemma HeadIsShortest(b: Bytes)
    requires ReadHead(b).Parsed?
    ensures var r := ReadHead(b);
            |HeadBytes(r.value)| + |r.rest| <= |b| + if r.value.F64Head? then 4 else 0
  {
    hide WriteInt, WriteStrLen, WriteBinLen, WriteArrayLen, WriteMapLen;
    match ReadHead(b).value
    case IntHead(_) => IntHeadIsShortest(b);
    case StrHead(_) => SizeHeadIsShortest(b);
    case BinHead(_) => SizeHeadIsShortest(b);
    case ArrayHead(_) => SizeHeadIsShortest(b);
    case MapHead(_) => SizeHeadIsShortest(b);
    case F64Head(_) => FloatHeadIsRead(b);
    case _ => ReadHeadConsumes(b);
  }

  lemma FloatHeadIsRead(b: Bytes)
    requires ReadHead(b).Parsed? && ReadHead(b).value.F64Head?
    ensures |ReadHead(b).rest| + 5 <= |b|
  {
    hide Widen, FromBigEndian, Pow256;
  }

  function Floats(v: Value): nat
    decreases v, 1
  {
    match v
    case F64(_) => 1
    case Array(items) => FloatsIn(items)
    case Map(entries) => FloatsAmong(entries)
    case _ => 0
  }

  function FloatsIn(items: seq<Value>): nat
    decreases items, 0
  {
    if items == [] then 0 else Floats(items[0]) + FloatsIn(items[1..])
  }

  function FloatsAmong(entries: seq<Entry>): nat
    decreases entries, 0
  {
    if entries == [] then 0 else FloatsOf(entries[0]) + FloatsAmong(entries[1..])
  }

  function FloatsOf(e: Entry): nat
    decreases e, 2
  {
    Floats(e.key) + Floats(e.value)
  }

  /** Whatever bytes a value is read from, its own encoding is no longer, but for the four bytes by
      which a 32-bit float grows. */
  lemma {:induction false} PackIsShortest(b: Bytes)
    ensures var r := Unpack(b);
            r.Parsed? ==> |Pack(r.value)| + |r.rest| <= |b| + 4 * Floats(r.value)
    decreases |b|, 0
  {
    hide ReadHead, Utf8, UnpackItems, UnpackEntries, PackItems, PackEntries, FloatsIn, FloatsAmong,
         WriteInt, WriteStrLen, WriteBinLen, WriteArrayLen, WriteMapLen, WellFormed;
    if Unpack(b).Parsed? {
      HeadIsShortest(b);
      ReadHeadConsumes(b);
      ReadHeadFits(b);
      var rest := ReadHead(b).rest;
      match ReadHead(b).value {
        case ArrayHead(n) => ItemsAreShortest(n, rest);
        case MapHead(n) => EntriesAreShortest(n, rest);
        case _ =>
      }
    }
  }

  /** Those four bytes are needed: a 32-bit zero. */
  lemma NarrowFloatGrows()
    ensures var b := [0xca, 0, 0, 0, 0]; Unpack(b) == Parsed(F64(0), []) && |Pack(F64(0))| == |b| + 4
  {
    var b: Bytes := [0xca, 0, 0, 0, 0];
    assert b[1..][..4] == [0, 0, 0, 0] && b[1..][4..] == [];
    ZeroBytes();
    assert ReadUint(b[1..], 4) == Parsed(0, []);
  }

  lemma ZeroBytes()
    ensures FromBigEndian([0, 0, 0, 0]) == 0
  {
    var b: Bytes := [0, 0, 0, 0];
    assert b[..3] == [0, 0, 0] && b[..3][..2] == [0, 0] && b[..2][..1] == [0] && b[..1][..0] == [];
    assert FromBigEndian([0]) == 0;
    assert FromBigEndian([0, 0]) == 0;
    assert FromBigEndian([0, 0, 0]) == 0;
  }

  lemma {:induction false} ItemsAreShortest(n: nat, b: Bytes)
    ensures var r := UnpackItems(n, b);
            r.Parsed? ==> |PackItems(r.value)| + |r.rest| <= |b| + 4 * FloatsIn(r.value)
    decreases |b|, 1
  {
    hide Unpack, Pack, Floats;
    if n > 0 && Unpack(b).Parsed? {
      PackIsShortest(b);
      ItemsAreShortest(n - 1, Unpack(b).rest);
      var others := UnpackItems(n - 1, Unpack(b).rest);
      if others.Parsed? {
        assert ([Unpack(b).value] + others.value)[1..] == others.value;
      }
    }
  }

  lemma {:induction false} EntriesAreShortest(n: nat, b: Bytes)
    ensures var r := UnpackEntries(n, b);
            r.Parsed? ==> |PackEntries(r.value)| + |r.rest| <= |b| + 4 * FloatsAmong(r.value)
    decreases |b|, 1
  {
    hide Unpack, Pack, Floats;
    if n > 0 && Unpack(b).Parsed? && Unpack(Unpack(b).rest).Parsed? {
      var second := Unpack(b).rest;
      PackIsShortest(b);
      PackIsShortest(second);
      EntriesAreShortest(n - 1, Unpack(second).rest);
      var others := UnpackEntries(n - 1, Unpack(second).rest);
      if others.Parsed? {
        var first := Entry(Unpack(b).value, Unpack(second).value);
        assert ([first] + others.value)[1..] == others.value;
      }
    }
  }
}

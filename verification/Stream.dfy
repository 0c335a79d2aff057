/** Buffer streams over a channel: frames, the writer's framing and the reader's slicing
    (src/buffer_stream.rs). */
module Stream {
  import opened Octets
  import opened Envelope

  const SMT_STREAM_DATA: U16 := 0xff00
  const STREAM_ID_MAX: U16 := 0x3fff
  const MAX_CHUNK_LEN: nat := 16384
  const COMPRESSION_TRIES: nat := 4
  const SLICE: nat := 4096

  datatype Frame = Frame(streamId: U16, data: Bytes, eof: bool, compressed: bool)

  /** bzip2, as `maybe_compress` and `decompress` expose it: `compress` gives back its input when
      compression does not help. */
  datatype Compressor = Compressor(compress: Bytes -> Bytes, decompress: (Bytes, nat) -> Option<Bytes>)

  /** The only law used: what compression made shorter decompresses to what it was. */
  ghost predicate Lossless(z: Compressor) {
    forall d: Bytes, max: nat :: |z.compress(d)| < |d| <= max ==>
      z.compress(d) != [] && z.decompress(z.compress(d), max) == Some(d)
  }

  function Header(f: Frame): U16 {
    f.streamId % 0x4000 + (if f.eof then 0x8000 else 0) + (if f.compressed then 0x4000 else 0)
  }

  function PackBytes(f: Frame): (raw: Bytes)
    ensures |raw| == 2 + |f.data|
  {
    Be16(Header(f)) + f.data
  }

  function UnpackBytes(z: Compressor, raw: Bytes): Option<Frame> {
    if |raw| < 2 then None
    else
      var header := FromBe16(raw[0], raw[1]);
      var compressed := header / 0x4000 % 2 == 1;
      var data := raw[2..];
      var plain := if compressed && data != [] then z.decompress(data, MAX_CHUNK_LEN) else Some(data);
      match plain
      case None => None
      case Some(d) => Some(Frame(header % 0x4000, d, header / 0x8000 == 1, compressed))
  }

  lemma HeaderBits(f: Frame)
    ensures Header(f) % 0x4000 == f.streamId % 0x4000
    ensures Header(f) / 0x4000 % 2 == 1 <==> f.compressed
    ensures Header(f) / 0x8000 == 1 <==> f.eof
  {
  }

  /** The first two bytes of a frame: the end mark in the highest bit, compression in the next, then the
      stream id. */
  lemma FrameLayout(f: Frame)
    requires f.streamId <= STREAM_ID_MAX
    ensures var raw := PackBytes(f);
            && 256 * raw[0] as int + raw[1] as int ==
               (if f.eof then 0x8000 else 0) + (if f.compressed then 0x4000 else 0) + f.streamId
            && raw[2..] == f.data
  {
    var raw := PackBytes(f);
    assert raw[0] == Be16(Header(f))[0] && raw[1] == Be16(Header(f))[1];
  }

  lemma HeaderId(f: Frame)
    requires f.streamId <= STREAM_ID_MAX
    ensures f.streamId % 0x4000 == f.streamId
  {
  }

  /** Reading a packed frame gives back its id, its end mark and its plain data. */
  lemma FrameRoundTrip(z: Compressor, f: Frame, plain: Bytes)
    requires Lossless(z) && f.streamId <= STREAM_ID_MAX
    requires if f.compressed then f.data == z.compress(plain) && |f.data| < |plain| <= MAX_CHUNK_LEN
             else f.data == plain
    ensures UnpackBytes(z, PackBytes(f)) == Some(f.(data := plain))
  {
    hide Be16, FromBe16, Header;
    var raw := PackBytes(f);
    assert raw[2..] == f.data && raw[0] == Be16(Header(f))[0] && raw[1] == Be16(Header(f))[1];
    assert FromBe16(raw[0], raw[1]) == Header(f);
    HeaderBits(f);
    HeaderId(f);
    if f.compressed {
      assert z.decompress(z.compress(plain), MAX_CHUNK_LEN) == Some(plain);
    }
  }

  // ---- Framing --------------------------------------------------------------------------

  /** One data frame: the bytes it carries on the wire, how many bytes of the stream they stand
      for, and whether they are compressed. */
  datatype Cut = Cut(payload: Bytes, processed: nat, compressed: bool)

  /** The first prefix, from `attempt` on, that compresses below both the frame and itself. */
  function CompressedCut(z: Compressor, chunk: Bytes, frameMdu: nat, attempt: nat): Option<Cut>
    requires attempt > 0
    decreases COMPRESSION_TRIES - attempt
  {
    if |chunk| <= 32 || attempt >= COMPRESSION_TRIES then None
    else
      var segment := |chunk| / attempt;
      var packed := z.compress(chunk[..segment]);
      if |packed| < frameMdu && |packed| < segment then Some(Cut(packed, segment, true))
      else CompressedCut(z, chunk, frameMdu, attempt + 1)
  }

  function CutFrame(z: Compressor, data: Bytes, frameMdu: nat): Cut {
    var chunk := data[..Min(|data|, MAX_CHUNK_LEN)];
    match CompressedCut(z, chunk, frameMdu, 1)
    case Some(cut) => cut
    case None => Cut(chunk[..Min(|chunk|, frameMdu)], Min(|chunk|, frameMdu), false)
  }

  /** The frame a cut is sent as. */
  function DataFrame(streamId: U16, cut: Cut): Frame {
    Frame(streamId, cut.payload, false, cut.compressed)
  }

  lemma {:induction false} CompressedCutIsPrefix(z: Compressor, chunk: Bytes, frameMdu: nat, attempt: nat)
    requires attempt > 0 && CompressedCut(z, chunk, frameMdu, attempt).Some?
    ensures var cut := CompressedCut(z, chunk, frameMdu, attempt).value;
            && cut.compressed && 0 < cut.processed <= |chunk|
            && cut.payload == z.compress(chunk[..cut.processed])
            && |cut.payload| < frameMdu && |cut.payload| < cut.processed
    decreases COMPRESSION_TRIES - attempt
  {
    var segment := |chunk| / attempt;
    assert 0 < segment <= |chunk|;
    var packed := z.compress(chunk[..segment]);
    if !(|packed| < frameMdu && |packed| < segment) {
      CompressedCutIsPrefix(z, chunk, frameMdu, attempt + 1);
    }
  }

  /** Cutting a chunk to one of its first `parts`-th pays off. */
  predicate PaysOff(z: Compressor, chunk: Bytes, frameMdu: nat, parts: nat)
    requires parts > 0
  {
    QuotientIsSmaller(|chunk|, parts);
    var packed := z.compress(chunk[..|chunk| / parts]);
    |packed| < frameMdu && |packed| < |chunk| / parts
  }

  lemma {:induction false} CompressedCutIsFirst(z: Compressor, chunk: Bytes, frameMdu: nat, attempt: nat)
    requires 0 < attempt <= COMPRESSION_TRIES && |chunk| > 32
    ensures var cut := CompressedCut(z, chunk, frameMdu, attempt);
            && (cut.None? <==> forall k :: attempt <= k < COMPRESSION_TRIES ==> !PaysOff(z, chunk, frameMdu, k))
            && (cut.Some? ==> exists k :: attempt <= k < COMPRESSION_TRIES && PaysOff(z, chunk, frameMdu, k)
                                          && cut.value.processed == |chunk| / k
                                          && forall j :: attempt <= j < k ==> !PaysOff(z, chunk, frameMdu, j))
    decreases COMPRESSION_TRIES - attempt
  {
    hide PaysOff, CompressedCut;
    OneTry(z, chunk, frameMdu, attempt);
    if attempt < COMPRESSION_TRIES && !PaysOff(z, chunk, frameMdu, attempt) {
      CompressedCutIsFirst(z, chunk, frameMdu, attempt + 1);
    }
  }

  lemma OneTry(z: Compressor, chunk: Bytes, frameMdu: nat, attempt: nat)
    requires 0 < attempt <= COMPRESSION_TRIES && |chunk| > 32
    ensures var cut := CompressedCut(z, chunk, frameMdu, attempt);
            if attempt == COMPRESSION_TRIES then cut == None
            else if PaysOff(z, chunk, frameMdu, attempt) then cut.Some? && cut.value.processed == |chunk| / attempt
            else cut == CompressedCut(z, chunk, frameMdu, attempt + 1)
  {
  }

  /** Which frame is cut: compressed exactly if more than 32 bytes are at hand and the whole, the
      half or the third of them compresses into the frame and below its own size, the longest
      such; else plain, as much as the frame holds. At most 16384 bytes are looked at. */
  lemma CutIsLongest(z: Compressor, data: Bytes, frameMdu: nat)
    ensures var chunk, cut := data[..Min(|data|, 16384)], CutFrame(z, data, frameMdu);
            if |chunk| <= 32 || !(PaysOff(z, chunk, frameMdu, 1) || PaysOff(z, chunk, frameMdu, 2)
                                  || PaysOff(z, chunk, frameMdu, 3))
            then cut == Cut(chunk[..Min(|chunk|, frameMdu)], Min(|chunk|, frameMdu), false)
            else
              var part := if PaysOff(z, chunk, frameMdu, 1) then |chunk|
                          else if PaysOff(z, chunk, frameMdu, 2) then |chunk| / 2 else |chunk| / 3;
              cut == Cut(z.compress(chunk[..part]), part, true)
  {
    var chunk := data[..Min(|data|, 16384)];
    assert MAX_CHUNK_LEN == 16384;
    if |chunk| > 32 {
      hide PaysOff;
      CompressedCutIsFirst(z, chunk, frameMdu, 1);
      var cut := CompressedCut(z, chunk, frameMdu, 1);
      if cut.Some? {
        CompressedCutIsPrefix(z, chunk, frameMdu, 1);
      }
    }
  }

  /** Every data frame makes progress, fits the frame budget, and is read back as exactly the
      bytes of the stream it stands for. */
  lemma FrameCarriesPrefix(z: Compressor, streamId: U16, data: Bytes, frameMdu: nat)
    requires Lossless(z) && streamId <= STREAM_ID_MAX && data != [] && frameMdu > 0
    ensures var cut := CutFrame(z, data, frameMdu);
            && 0 < cut.processed <= |data|
            && |cut.payload| <= frameMdu
            && UnpackBytes(z, PackBytes(DataFrame(streamId, cut)))
               == Some(Frame(streamId, data[..cut.processed], false, cut.compressed))
  {
    var chunk := data[..Min(|data|, MAX_CHUNK_LEN)];
    var cut := CutFrame(z, data, frameMdu);
    if CompressedCut(z, chunk, frameMdu, 1).Some? {
      CompressedCutIsPrefix(z, chunk, frameMdu, 1);
    }
    assert chunk[..cut.processed] == data[..cut.processed];
    FrameRoundTrip(z, DataFrame(streamId, cut), data[..cut.processed]);
  }

  /** A frame cut for the channel's own `mdu` passes the channel's size test. */
  lemma FrameFitsChannel(z: Compressor, streamId: U16, data: Bytes, linkMdu: nat)
    requires Lossless(z) && streamId <= STREAM_ID_MAX && data != []
    requires Mdu(linkMdu) > 2
    ensures var cut := CutFrame(z, data, SaturatingSub(Mdu(linkMdu), 2));
            SizeAccepted(linkMdu, |PackBytes(DataFrame(streamId, cut))|)
  {
    FrameCarriesPrefix(z, streamId, data, SaturatingSub(Mdu(linkMdu), 2));
    MduIsWhatSendAccepts(linkMdu);
  }

  /** `write_frame` for data, up to the call of `send`; a frame budget of 0 is its error. */
  method WriteFrame(z: Compressor, data: Bytes, frameMdu: nat) returns (cut: Option<Cut>)
    ensures cut == if frameMdu == 0 then None else Some(CutFrame(z, data, frameMdu))
  {
    var chunk := data;
    if |chunk| > MAX_CHUNK_LEN {
      chunk := chunk[..MAX_CHUNK_LEN];
    }
    if frameMdu == 0 {
      return None;
    }
    assert chunk == data[..Min(|data|, MAX_CHUNK_LEN)];
    var attempt := 1;
    while |chunk| > 32 && attempt < COMPRESSION_TRIES
      invariant 1 <= attempt <= COMPRESSION_TRIES
      invariant CompressedCut(z, chunk, frameMdu, 1) == CompressedCut(z, chunk, frameMdu, attempt)
    {
      var segment := |chunk| / attempt;
      assert segment <= |chunk|;
      var packed := z.compress(chunk[..segment]);
      if |packed| < frameMdu && |packed| < segment {
        return Some(Cut(packed, segment, true));
      }
      attempt := attempt + 1;
    }
    var take := Min(|chunk|, frameMdu);
    cut := Some(Cut(chunk[..take], take, false));
  }

  /** What the channel answered to one attempt to send a frame. */
  datatype Verdict = Taken | TryAgain | Fatal

  /** The bytes a sequence of received frames stands for. */
  function Data(z: Compressor, packed: seq<Bytes>): Bytes {
    if packed == [] then []
    else
      var last := UnpackBytes(z, packed[|packed| - 1]);
      Data(z, packed[..|packed| - 1]) + (if last.Some? then last.value.data else [])
  }

  lemma DataAppend(z: Compressor, packed: seq<Bytes>, raw: Bytes, f: Frame)
    requires UnpackBytes(z, raw) == Some(f)
    ensures Data(z, packed + [raw]) == Data(z, packed) + f.data
  {
    assert (packed + [raw])[..|packed|] == packed;
  }

  /** The writer's inner loop over one chunk, against whatever the channel answers. The frames
      it got accepted read back as exactly the part of the chunk it has passed, and each of
      them moved it forward: after as many accepted frames as there are bytes it is done. */
  method PumpChunk(z: Compressor, streamId: U16, chunk: Bytes, frameMdu: nat, verdicts: seq<Verdict>)
    returns (offset: nat, accepted: seq<Bytes>)
    requires Lossless(z) && streamId <= STREAM_ID_MAX
    ensures offset <= |chunk|
    ensures Data(z, accepted) == chunk[..offset]
    ensures |accepted| <= offset
    ensures forall raw :: raw in accepted ==> |raw| <= frameMdu + 2
  {
    hide CutFrame, PackBytes, UnpackBytes, Lossless;
    offset, accepted := 0, [];
    var n := 0;
    while offset < |chunk| && n < |verdicts|
      invariant offset <= |chunk| && n <= |verdicts|
      invariant Data(z, accepted) == chunk[..offset]
      invariant |accepted| <= offset
      invariant forall raw :: raw in accepted ==> |raw| <= frameMdu + 2
      decreases |verdicts| - n
    {
      var rest := chunk[offset..];
      var frame := WriteFrame(z, rest, frameMdu);
      if frame.None? {
        return;
      }
      var cut := frame.value;
      FrameCarriesPrefix(z, streamId, rest, frameMdu);
      match verdicts[n] {
      case Taken =>
        var raw := PackBytes(DataFrame(streamId, cut));
        DataAppend(z, accepted, raw, Frame(streamId, rest[..cut.processed], false, cut.compressed));
        assert chunk[..offset] + rest[..cut.processed] == chunk[..offset + cut.processed];
        accepted := accepted + [raw];
        offset := offset + cut.processed;
      case TryAgain =>
      case Fatal =>
        return;
      }
      n := n + 1;
    }
  }

  // ---- Reading --------------------------------------------------------------------------

  function Concat(parts: seq<Bytes>): Bytes {
    if parts == [] then [] else Concat(parts[..|parts| - 1]) + parts[|parts| - 1]
  }

  /** The pump hands one frame to the reader in slices of at most 4096 bytes, losing nothing. */
  method SliceFrame(data: Bytes) returns (slices: seq<Bytes>)
    ensures Concat(slices) == data
    ensures forall s :: s in slices ==> 0 < |s| <= SLICE
  {
    slices := [];
    var rest := data;
    while rest != []
      invariant Concat(slices) + rest == data
      invariant forall s :: s in slices ==> 0 < |s| <= SLICE
    {
      var take := Min(|rest|, SLICE);
      var slice := rest[..take];
      assert (slices + [slice])[..|slices|] == slices;
      assert slice + rest[take..] == rest;
      slices := slices + [slice];
      rest := rest[take..];
    }
  }
}

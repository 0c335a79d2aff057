/** The six-byte channel envelope and the size arithmetic around it (src/channel.rs). */
module Envelope {
  import opened Octets

  const PACKET_MDU: nat := 2048
  const TOKEN_OVERHEAD: nat := 48
  const AES128_BLOCKSIZE: nat := 16
  const HEADER_LEN: nat := 6

  datatype Header = Header(messageType: U16, sequence: U16, size: U16)

  function EnvelopeRaw(data: Bytes, messageType: U16, sequence: Option<U16>): (raw: Bytes)
    ensures |raw| == |data| + HEADER_LEN
  {
    Be16(messageType)
    + Be16(match sequence case Some(s) => s case None => 0)
    + Be16(Wrap(|data|))
    + data
  }

  function DeenvelopeRaw(raw: Bytes): (header: Option<Header>) {
    if |raw| < HEADER_LEN then None
    else Some(Header(FromBe16(raw[0], raw[1]), FromBe16(raw[2], raw[3]), FromBe16(raw[4], raw[5])))
  }

  /** The receiver reads back the type, the sequence number and the payload. */
  lemma EnvelopeRoundTrip(data: Bytes, messageType: U16, sequence: U16)
    ensures var raw := EnvelopeRaw(data, messageType, Some(sequence));
            DeenvelopeRaw(raw) == Some(Header(messageType, sequence, Wrap(|data|))) && raw[HEADER_LEN..] == data
  {
    var raw := EnvelopeRaw(data, messageType, Some(sequence));
    assert raw[..2] == Be16(messageType);
    assert raw[2..4] == Be16(sequence);
    assert raw[4..6] == Be16(Wrap(|data|));
    assert raw[0] == Be16(messageType)[0] && raw[1] == Be16(messageType)[1];
    assert raw[2] == Be16(sequence)[0] && raw[3] == Be16(sequence)[1];
  }

  /** Where the three numbers stand, most significant byte first: type, sequence number, length. */
  lemma EnvelopeLayout(data: Bytes, messageType: U16, sequence: U16)
    ensures var raw := EnvelopeRaw(data, messageType, Some(sequence));
            && 256 * raw[0] as int + raw[1] as int == messageType
            && 256 * raw[2] as int + raw[3] as int == sequence
            && 256 * raw[4] as int + raw[5] as int == |data| % 65536
            && raw[6..] == data
  {
    var raw := EnvelopeRaw(data, messageType, Some(sequence));
    assert raw[..2] == Be16(messageType) && raw[2..4] == Be16(sequence) && raw[4..6] == Be16(Wrap(|data|));
    assert raw[0] == Be16(messageType)[0] && raw[1] == Be16(messageType)[1];
    assert raw[2] == Be16(sequence)[0] && raw[3] == Be16(sequence)[1];
    assert raw[4] == Be16(Wrap(|data|))[0] && raw[5] == Be16(Wrap(|data|))[1];
  }

  function MaxLinkPlaintext(): nat {
    var room := SaturatingSub(PACKET_MDU, TOKEN_OVERHEAD);
    SaturatingSub(room / AES128_BLOCKSIZE * AES128_BLOCKSIZE, 1)
  }

  /** Length of the token for `plaintext` bytes: IV, HMAC and the plaintext padded up to the
      next block, with at least one padding byte (section 6.3 of RFC 5652). */
  function TokenLength(plaintext: nat): nat {
    TOKEN_OVERHEAD + (plaintext / AES128_BLOCKSIZE + 1) * AES128_BLOCKSIZE
  }

  /** `MaxLinkPlaintext` is the largest plaintext whose token fits a packet, and exactly that. */
  lemma MaxLinkPlaintextIsExact(plaintext: nat)
    ensures plaintext <= MaxLinkPlaintext() <==> TokenLength(plaintext) <= PACKET_MDU
  {
    assert MaxLinkPlaintext() == 1999;
    assert plaintext <= 1999 <==> plaintext / 16 <= 124;
  }

  /** `Channel::mdu`. */
  function Mdu(linkMdu: nat): nat {
    Min(SaturatingSub(linkMdu, HEADER_LEN), SaturatingSub(MaxLinkPlaintext(), HEADER_LEN))
  }

  /** The size test of `Outbound::send` on a payload of `payload` bytes. */
  predicate SizeAccepted(linkMdu: nat, payload: nat) {
    var limit := Min(Min(linkMdu, MaxLinkPlaintext()), 0xFFFF + HEADER_LEN);
    payload <= 0xFFFF && payload + HEADER_LEN <= limit
  }

  /** `mdu` advertises exactly what `send` accepts if and only if the link MDU holds a header.
      Below that, `mdu` is 0 while `send` refuses even the empty payload. */
  lemma MduIsWhatSendAccepts(linkMdu: nat)
    ensures (forall payload: nat :: SizeAccepted(linkMdu, payload) <==> payload <= Mdu(linkMdu)) <==>
            linkMdu >= HEADER_LEN
  {
    if linkMdu < HEADER_LEN {
      assert !SizeAccepted(linkMdu, 0) && 0 <= Mdu(linkMdu);
    }
  }
}

/** The packed 12-byte message header and the two message layouts built on it. */
module TcpHeader {
  import opened Bytes

  const HEADER_SIZE: nat := 12        // sizeof(TcpHeader)
  const SIZE_FIELD: nat := 2          // sizeof(TcpHeader::header_size)
  const REGULAR_PAYLOAD: byte := 0
  const PROTOCOL_HANDSHAKE: byte := 1

  datatype Header = Header(headerSize: uint16, kind: byte, reserved: byte, dataSize: uint64)

  function EncodeHeader(h: Header): (b: seq<byte>)
    ensures |b| == HEADER_SIZE
  {
    LittleEndian(h.headerSize, 2) + [h.kind, h.reserved] + LittleEndian(h.dataSize, 8)
  }

  function DecodeHeader(b: seq<byte>): Header
    requires |b| == HEADER_SIZE
  {
    WidthsOfTheProtocol();
    DecodeThenEncode(b[..2]);
    DecodeThenEncode(b[4..]);
    Header(FromLittleEndian(b[..2]), b[2], b[3], FromLittleEndian(b[4..]))
  }

  /** A header as the receiver sees it: the bytes that were sent, over a zeroed struct,
      and nothing beyond the twelfth byte. */
  function HeaderOf(sent: seq<byte>): Header {
    if |sent| >= HEADER_SIZE then DecodeHeader(sent[..HEADER_SIZE])
    else DecodeHeader(sent + Zeros(HEADER_SIZE - |sent|))
  }

  /** The packed layout, byte by byte. */
  lemma HeaderLayout(h: Header)
    ensures var b := EncodeHeader(h);
      && b[0] == h.headerSize % 0x100 && b[1] == h.headerSize / 0x100
      && b[2] == h.kind && b[3] == h.reserved
      && forall i | 0 <= i < 8 :: Capacity(i) > 0 && b[4 + i] == (h.dataSize / Capacity(i)) % 0x100
  {
    var b := EncodeHeader(h);
    DigitAt(h.headerSize, 2, 0);
    DigitAt(h.headerSize, 2, 1);
    assert Capacity(0) == 1 && Capacity(1) == 0x100;
    forall i | 0 <= i < 8 ensures Capacity(i) > 0 && b[4 + i] == (h.dataSize / Capacity(i)) % 0x100 {
      DigitAt(h.dataSize, 8, i);
      assert b[4 + i] == LittleEndian(h.dataSize, 8)[i];
    }
  }

  lemma HeaderRoundTrip(h: Header)
    ensures DecodeHeader(EncodeHeader(h)) == h
  {
    WidthsOfTheProtocol();
    EncodeThenDecode(h.headerSize, 2);
    EncodeThenDecode(h.dataSize, 8);
    var b := EncodeHeader(h);
    assert b[..2] == LittleEndian(h.headerSize, 2);
    assert b[4..] == LittleEndian(h.dataSize, 8);
  }

  lemma HeaderInjective(a: seq<byte>, b: seq<byte>)
    requires |a| == |b| == HEADER_SIZE
    requires DecodeHeader(a) == DecodeHeader(b)
    ensures a == b
  {
    DecodeThenEncode(a[..2]); DecodeThenEncode(a[4..]);
    DecodeThenEncode(b[..2]); DecodeThenEncode(b[4..]);
    assert a == a[..2] + [a[2], a[3]] + a[4..];
    assert b == b[..2] + [b[2], b[3]] + b[4..];
  }

  /** A sender may cut its header short exactly when every byte it leaves out is zero. */
  lemma ShortHeaderTolerance(h: Header, size: nat)
    requires SIZE_FIELD <= size < HEADER_SIZE
    ensures HeaderOf(EncodeHeader(h)[..size]) == h
            <==> forall i | size <= i < HEADER_SIZE :: EncodeHeader(h)[i] == 0
  {
    var full := EncodeHeader(h);
    var padded := full[..size] + Zeros(HEADER_SIZE - size);
    HeaderRoundTrip(h);
    if HeaderOf(full[..size]) == h {
      HeaderInjective(padded, full);
      forall i | size <= i < HEADER_SIZE ensures full[i] == 0 {
        assert padded[i] == 0;
      }
    }
    if forall i | size <= i < HEADER_SIZE :: full[i] == 0 {
      assert padded == full;
    }
  }

  /** A longer header means what its first twelve bytes mean. */
  lemma LongHeaderTolerance(h: Header, extra: seq<byte>)
    ensures HeaderOf(EncodeHeader(h) + extra) == h
  {
    HeaderRoundTrip(h);
    assert (EncodeHeader(h) + extra)[..HEADER_SIZE] == EncodeHeader(h);
  }

  /** The frame that `Publisher::send` makes out of a payload. */
  function DataFrame(payload: seq<byte>): seq<byte>
    requires HEADER_SIZE + |payload| < 0x1_0000_0000_0000_0000
  {
    EncodeHeader(Header(HEADER_SIZE, REGULAR_PAYLOAD, 0, |payload|)) + payload
  }

  /** The 13 bytes of a ProtocolHandshakeReq or ProtocolHandshakeResp for version 0. */
  function HandshakeFrame(): seq<byte> {
    EncodeHeader(Header(HEADER_SIZE, PROTOCOL_HANDSHAKE, 0, 1)) + [0]
  }

  lemma {:induction false} EncodesZero(width: nat)
    ensures LittleEndian(0, width) == Zeros(width)
  {
    if width > 0 { EncodesZero(width - 1); }
  }

  /** The thirteen bytes of the handshake messages, on the wire. */
  lemma HandshakeBytes()
    ensures HandshakeFrame() == [12, 0, 1, 0, 1, 0, 0, 0, 0, 0, 0, 0, 0]
  {
    EncodesZero(7);
    assert LittleEndian(12, 2) == [12, 0];
    assert LittleEndian(1, 8) == [1] + Zeros(7);
    assert Zeros(7) == [0, 0, 0, 0, 0, 0, 0];
  }

  /** How a frame of `send` opens, and where its payload starts. */
  lemma DataFrameBytes(payload: seq<byte>)
    requires HEADER_SIZE + |payload| < 0x1_0000_0000_0000_0000
    ensures var f := DataFrame(payload);
      && f[..4] == [12, 0, 0, 0] && f[12..] == payload
      && forall i | 0 <= i < 8 :: Capacity(i) > 0 && f[4 + i] == (|payload| / Capacity(i)) % 0x100
  {
    HeaderLayout(Header(HEADER_SIZE, REGULAR_PAYLOAD, 0, |payload|));
    hide EncodeHeader;
  }
}

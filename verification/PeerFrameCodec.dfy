/** The wire form of one peer frame: a 24-byte header in network byte order, a text header and a body
    (src/net/peer_frame.cpp and peer_frame.h). */
module PeerFrameCodec {
  import opened Prelude

  const FRAME_HEADER_SIZE := 24
  const PROTOCOL_VERSION := 1
  const MAX_HEADER_LENGTH := 1024 * 1024
  const MAX_BODY_LENGTH := 1024 * 1024 * 1024

  type UInt16 = x: int | 0 <= x < 0x1_0000
  type UInt32 = x: int | 0 <= x < 0x1_0000_0000
  type UInt64 = x: int | 0 <= x < 0x1_0000_0000_0000_0000

  datatype FrameType =
    | ProfileHello | ProfileUpdate | ChatMessage | ChatMessageUpdate | DeliveryReceipt
    | TransferOffer | TransferAccept | TransferReject | TransferChunk | TransferComplete | TransferCancel
    | Heartbeat | AppUpdateRequest | AppUpdateChunk | AppUpdateComplete

  datatype PeerFrame = PeerFrame(version: UInt16, frameType: FrameType, flags: UInt32, header: seq<Byte>, body: seq<Byte>)

  datatype PeerFrameHeader = PeerFrameHeader(
    version: UInt16, frameType: FrameType, flags: UInt32, headerLength: UInt32, bodyLength: UInt64)

  datatype FrameError =
    TooShort | BadMagic | UnsupportedVersion | UnsupportedType | HeaderTooLarge | BodyTooLarge | LengthMismatch

  // ---- Numbers in network byte order ----

  function Magic(): seq<Byte> { [82, 76, 68, 75] }

  /** The low `n` bytes of `value`, most significant first. */
  function BigEndian(value: nat, n: nat): (bytes: seq<Byte>)
    ensures |bytes| == n
  {
    if n == 0 then [] else BigEndian(value / 256, n - 1) + [(value % 256) as Byte]
  }

  function ValueOf(bytes: seq<Byte>): nat {
    if bytes == [] then 0 else 256 * ValueOf(bytes[..|bytes| - 1]) + bytes[|bytes| - 1] as int
  }

  function Power256(n: nat): nat {
    if n == 0 then 1 else 256 * Power256(n - 1)
  }

  /** `value >> 8 * n`. */
  function ShiftRight(value: nat, n: nat): nat {
    if n == 0 then value else ShiftRight(value, n - 1) / 256
  }

  lemma {:induction false} ValueOfBigEndian(value: nat, n: nat)
    requires value < Power256(n)
    ensures ValueOf(BigEndian(value, n)) == value
  {
    if n > 0 {
      ValueOfBigEndian(value / 256, n - 1);
      var bytes := BigEndian(value, n);
      assert bytes[..|bytes| - 1] == BigEndian(value / 256, n - 1);
    }
  }

  lemma {:induction false} BigEndianOfValue(bytes: seq<Byte>)
    ensures ValueOf(bytes) < Power256(|bytes|) && BigEndian(ValueOf(bytes), |bytes|) == bytes
  {
    if bytes != [] {
      BigEndianOfValue(bytes[..|bytes| - 1]);
    }
  }

  lemma {:induction false} Powers()
    ensures Power256(2) == 0x1_0000 && Power256(4) == 0x1_0000_0000 && Power256(8) == 0x1_0000_0000_0000_0000
  {
    assert Power256(3) == 256 * Power256(2);
    assert Power256(5) == 256 * Power256(4);
    assert Power256(7) == 256 * Power256(6);
  }

  // ---- Frame types ----

  function ToWireValue(frameType: FrameType): UInt16 {
    match frameType
    case ProfileHello => 1
    case ProfileUpdate => 2
    case ChatMessage => 3
    case ChatMessageUpdate => 4
    case DeliveryReceipt => 5
    case TransferOffer => 6
    case TransferAccept => 7
    case TransferReject => 8
    case TransferChunk => 9
    case TransferComplete => 10
    case TransferCancel => 11
    case Heartbeat => 12
    case AppUpdateRequest => 13
    case AppUpdateChunk => 14
    case AppUpdateComplete => 15
  }

  function FrameTypeFromWireValue(value: UInt16): (frameType: Option<FrameType>)
    ensures frameType.Some? <==> 1 <= value <= 15
    ensures frameType.Some? ==> ToWireValue(frameType.value) == value
  {
    match value
    case 1 => Some(ProfileHello)
    case 2 => Some(ProfileUpdate)
    case 3 => Some(ChatMessage)
    case 4 => Some(ChatMessageUpdate)
    case 5 => Some(DeliveryReceipt)
    case 6 => Some(TransferOffer)
    case 7 => Some(TransferAccept)
    case 8 => Some(TransferReject)
    case 9 => Some(TransferChunk)
    case 10 => Some(TransferComplete)
    case 11 => Some(TransferCancel)
    case 12 => Some(Heartbeat)
    case 13 => Some(AppUpdateRequest)
    case 14 => Some(AppUpdateChunk)
    case 15 => Some(AppUpdateComplete)
    case _ => None
  }

  /** The frame types in the order of their numbers. */
  const TYPES_BY_NUMBER := [
    ProfileHello, ProfileUpdate, ChatMessage, ChatMessageUpdate, DeliveryReceipt,
    TransferOffer, TransferAccept, TransferReject, TransferChunk, TransferComplete, TransferCancel,
    Heartbeat, AppUpdateRequest, AppUpdateChunk, AppUpdateComplete]

  /** The numbers on the wire count the types from 1 on. */
  lemma {:induction false} NumbersCountTypes(k: nat)
    requires k < |TYPES_BY_NUMBER|
    ensures ToWireValue(TYPES_BY_NUMBER[k]) == k + 1 && FrameTypeFromWireValue(k + 1) == Some(TYPES_BY_NUMBER[k])
  {
    assert k in {0, 1, 2, 3, 4, 5, 6, 7, 8, 9, 10, 11, 12, 13, 14};
  }

  // ---- Encoding ----

  /** `validateFrameForEncoding`. */
  function EncodingError(frame: PeerFrame): Option<FrameError> {
    if frame.version != PROTOCOL_VERSION then Some(UnsupportedVersion)
    else if |frame.header| > MAX_HEADER_LENGTH then Some(HeaderTooLarge)
    else if |frame.body| > MAX_BODY_LENGTH then Some(BodyTooLarge)
    else None
  }

  predicate Encodable(frame: PeerFrame) {
    EncodingError(frame).None?
  }

  function HeaderBytes(version: nat, wireType: nat, flags: nat, headerLength: nat, bodyLength: nat): (bytes: seq<Byte>)
    ensures |bytes| == FRAME_HEADER_SIZE
  {
    Magic() + BigEndian(version, 2) + BigEndian(wireType, 2) + BigEndian(flags, 4)
    + BigEndian(headerLength, 4) + BigEndian(bodyLength, 8)
  }

  function FrameHeaderBytes(frame: PeerFrame): (bytes: seq<Byte>)
    ensures |bytes| == FRAME_HEADER_SIZE
  {
    HeaderBytes(frame.version, ToWireValue(frame.frameType), frame.flags, |frame.header|, |frame.body|)
  }

  function FrameSize(frame: PeerFrame): nat {
    FRAME_HEADER_SIZE + |frame.header| + |frame.body|
  }

  function Encode(frame: PeerFrame): (bytes: seq<Byte>)
    ensures |bytes| == FrameSize(frame)
  {
    FrameHeaderBytes(frame) + frame.header + frame.body
  }

  /** `appendUint16` and `appendUint32` on the header array at a moving offset: byte by byte. */
  method AppendUint16(bytes: array<Byte>, offset: nat, value: UInt16) returns (offset': nat)
    requires offset + 2 <= bytes.Length
    modifies bytes
    ensures offset' == offset + 2
    ensures bytes[..] == old(bytes[..offset]) + BigEndian(value, 2) + old(bytes[offset + 2..])
  {
    bytes[offset] := (value / 256 % 256) as Byte;
    bytes[offset + 1] := (value % 256) as Byte;
    assert BigEndian(value, 1) == BigEndian(value / 256, 0) + [(value % 256) as Byte];
    return offset + 2;
  }

  method AppendUint32(bytes: array<Byte>, offset: nat, value: UInt32) returns (offset': nat)
    requires offset + 4 <= bytes.Length
    modifies bytes
    ensures offset' == offset + 4
    ensures bytes[..] == old(bytes[..offset]) + BigEndian(value, 4) + old(bytes[offset + 4..])
  {
    bytes[offset] := (value / 0x100_0000 % 256) as Byte;
    bytes[offset + 1] := (value / 0x1_0000 % 256) as Byte;
    bytes[offset + 2] := (value / 256 % 256) as Byte;
    bytes[offset + 3] := (value % 256) as Byte;
    FourBytes(value);
    return offset + 4;
  }

  lemma {:induction false} FourBytes(value: nat)
    ensures BigEndian(value, 4) == [(value / 0x100_0000 % 256) as Byte, (value / 0x1_0000 % 256) as Byte,
                                    (value / 256 % 256) as Byte, (value % 256) as Byte]
  {
    assert value / 256 / 256 == value / 0x1_0000;
    assert value / 0x1_0000 / 256 == value / 0x100_0000;
    var a := value / 0x100_0000;
    assert BigEndian(a, 1) == BigEndian(a / 256, 0) + [(a % 256) as Byte];
    assert BigEndian(value / 0x1_0000, 2) == BigEndian(a, 1) + [(value / 0x1_0000 % 256) as Byte];
    assert BigEndian(value / 256, 3) == BigEndian(value / 0x1_0000, 2) + [(value / 256 % 256) as Byte];
  }

  /** `appendUint64`: one byte for every shift from 56 down to 0. */
  method AppendUint64(bytes: array<Byte>, offset: nat, value: UInt64) returns (offset': nat)
    requires offset + 8 <= bytes.Length
    modifies bytes
    ensures offset' == offset + 8
    ensures bytes[..] == old(bytes[..offset]) + BigEndian(value, 8) + old(bytes[offset + 8..])
  {
    ghost var was := bytes[..];
    offset' := offset;
    var left := 8;
    while left > 0
      invariant left <= 8 && offset' == offset + 8 - left
      invariant bytes[..] == was[..offset] + BigEndian(ShiftRight(value, left), 8 - left) + was[offset'..]
    {
      left := left - 1;
      bytes[offset'] := (ShiftRight(value, left) % 256) as Byte;
      offset' := offset' + 1;
    }
  }

  method EncodePeerFrameHeader(frame: PeerFrame) returns (result: Result<array<Byte>, FrameError>)
    ensures result.Err? ==> EncodingError(frame) == Some(result.error)
    ensures result.Ok? ==> Encodable(frame) && fresh(result.value) && result.value[..] == FrameHeaderBytes(frame)
  {
    if frame.version != PROTOCOL_VERSION { return Err(UnsupportedVersion); }
    if |frame.header| > MAX_HEADER_LENGTH { return Err(HeaderTooLarge); }
    if |frame.body| > MAX_BODY_LENGTH { return Err(BodyTooLarge); }
    var bytes := new Byte[FRAME_HEADER_SIZE](_ => 0);
    bytes[0], bytes[1], bytes[2], bytes[3] := 82, 76, 68, 75;
    var offset := 4;
    assert bytes[..offset] == Magic();
    offset := AppendUint16(bytes, offset, frame.version);
    offset := AppendUint16(bytes, offset, ToWireValue(frame.frameType));
    offset := AppendUint32(bytes, offset, frame.flags);
    offset := AppendUint32(bytes, offset, |frame.header|);
    offset := AppendUint64(bytes, offset, |frame.body|);
    return Ok(bytes);
  }

  method EncodePeerFrame(frame: PeerFrame) returns (result: Result<seq<Byte>, FrameError>)
    ensures result.Err? ==> EncodingError(frame) == Some(result.error)
    ensures result.Ok? ==> Encodable(frame) && result.value == Encode(frame)
  {
    var header := EncodePeerFrameHeader(frame);
    if header.Err? { return Err(header.error); }
    var bytes := header.value[..];
    bytes := bytes + frame.header;
    bytes := bytes + frame.body;
    return Ok(bytes);
  }

  // ---- Decoding ----

  /** `readUint64`: the accumulator loop. */
  method ReadUint64(bytes: seq<Byte>, offset: nat) returns (value: UInt64)
    requires offset + 8 <= |bytes|
    ensures value == ValueOf(bytes[offset..offset + 8])
  {
    var accumulated := 0;
    for index := 0 to 8
      invariant accumulated == ValueOf(bytes[offset..offset + index])
    {
      assert bytes[offset..offset + index + 1][..index] == bytes[offset..offset + index];
      accumulated := accumulated * 256 + bytes[offset + index] as int;
    }
    BigEndianOfValue(bytes[offset..offset + 8]);
    Powers();
    return accumulated;
  }

  function ReadUint(bytes: seq<Byte>, offset: nat, size: nat): nat
    requires offset + size <= |bytes|
  {
    ValueOf(bytes[offset..offset + size])
  }

  lemma {:induction false} ReadUintFits(bytes: seq<Byte>, offset: nat, size: nat)
    requires offset + size <= |bytes|
    ensures ReadUint(bytes, offset, size) < Power256(size)
  {
    BigEndianOfValue(bytes[offset..offset + size]);
  }

  function DecodeHeader(bytes: seq<Byte>): Result<PeerFrameHeader, FrameError> {
    if |bytes| < FRAME_HEADER_SIZE then Err(TooShort)
    else if bytes[..4] != Magic() then Err(BadMagic)
    else if ReadUint(bytes, 4, 2) != PROTOCOL_VERSION then Err(UnsupportedVersion)
    else
      ReadUintFits(bytes, 6, 2); ReadUintFits(bytes, 8, 4); ReadUintFits(bytes, 12, 4); ReadUintFits(bytes, 16, 8);
      Powers();
      var frameType := FrameTypeFromWireValue(ReadUint(bytes, 6, 2));
      if frameType.None? then Err(UnsupportedType)
      else if ReadUint(bytes, 12, 4) > MAX_HEADER_LENGTH then Err(HeaderTooLarge)
      else if ReadUint(bytes, 16, 8) > MAX_BODY_LENGTH then Err(BodyTooLarge)
      else Ok(PeerFrameHeader(PROTOCOL_VERSION, frameType.value, ReadUint(bytes, 8, 4), ReadUint(bytes, 12, 4),
                              ReadUint(bytes, 16, 8)))
  }

  function PayloadSize(header: PeerFrameHeader): nat {
    header.headerLength + header.bodyLength
  }

  function FrameFrom(header: PeerFrameHeader, payload: seq<Byte>): PeerFrame
    requires |payload| == PayloadSize(header)
  {
    PeerFrame(header.version, header.frameType, header.flags, payload[..header.headerLength], payload[header.headerLength..])
  }

  function Decode(bytes: seq<Byte>): Result<PeerFrame, FrameError> {
    var header := DecodeHeader(bytes);
    if header.Err? then Err(header.error)
    else if |bytes| - FRAME_HEADER_SIZE != PayloadSize(header.value) then Err(LengthMismatch)
    else Ok(FrameFrom(header.value, bytes[FRAME_HEADER_SIZE..]))
  }

  // ---- Round trips ----

  /** The fields of a header can be read back at their offsets, whatever follows. */
  lemma {:induction false} FieldsOf(version: nat, wireType: nat, flags: nat, headerLength: nat, bodyLength: nat,
        rest: seq<Byte>)
    ensures var bytes := HeaderBytes(version, wireType, flags, headerLength, bodyLength) + rest;
      && bytes[..4] == Magic() && bytes[4..6] == BigEndian(version, 2) && bytes[6..8] == BigEndian(wireType, 2)
      && bytes[8..12] == BigEndian(flags, 4) && bytes[12..16] == BigEndian(headerLength, 4)
      && bytes[16..24] == BigEndian(bodyLength, 8) && bytes[24..] == rest
  {
  }

  lemma {:induction false} FieldsReadBack(version: UInt16, wireType: UInt16, flags: UInt32, headerLength: UInt32,
        bodyLength: UInt64,
                                          rest: seq<Byte>)
    ensures var bytes := HeaderBytes(version, wireType, flags, headerLength, bodyLength) + rest;
      && bytes[..4] == Magic() && ReadUint(bytes, 4, 2) == version && ReadUint(bytes, 6, 2) == wireType
      && ReadUint(bytes, 8, 4) == flags && ReadUint(bytes, 12, 4) == headerLength && ReadUint(bytes, 16, 8) == bodyLength
  {
    FieldsOf(version, wireType, flags, headerLength, bodyLength, rest);
    Powers();
    ValueOfBigEndian(version, 2);
    ValueOfBigEndian(wireType, 2);
    ValueOfBigEndian(flags, 4);
    ValueOfBigEndian(headerLength, 4);
    ValueOfBigEndian(bodyLength, 8);
  }

  lemma {:induction false} HeaderReadsBack(frame: PeerFrame, rest: seq<Byte>)
    requires Encodable(frame)
    ensures DecodeHeader(FrameHeaderBytes(frame) + rest)
         == Ok(PeerFrameHeader(frame.version, frame.frameType, frame.flags, |frame.header|, |frame.body|))
  {
    var bytes := FrameHeaderBytes(frame) + rest;
    FieldsReadBack(frame.version, ToWireValue(frame.frameType), frame.flags, |frame.header|, |frame.body|, rest);
    assert FrameTypeFromWireValue(ReadUint(bytes, 6, 2)) == Some(frame.frameType);
  }

  lemma {:induction false} FrameIsPutTogether(frame: PeerFrame)
    requires Encodable(frame)
    ensures FrameFrom(PeerFrameHeader(frame.version, frame.frameType, frame.flags, |frame.header|, |frame.body|),
                      frame.header + frame.body)
         == frame
  {
    assert (frame.header + frame.body)[..|frame.header|] == frame.header;
    assert (frame.header + frame.body)[|frame.header|..] == frame.body;
  }

  lemma {:induction false} EncodingInParts(frame: PeerFrame, rest: seq<Byte>)
    ensures var bytes := Encode(frame) + rest;
      && bytes == FrameHeaderBytes(frame) + (frame.header + frame.body + rest)
      && bytes[FRAME_HEADER_SIZE..FrameSize(frame)] == frame.header + frame.body
  {
  }

  lemma {:induction false} DecodeEncode(frame: PeerFrame)
    requires Encodable(frame)
    ensures Decode(Encode(frame)) == Ok(frame)
  {
    EncodingInParts(frame, []);
    assert Encode(frame) + [] == Encode(frame) && frame.header + frame.body + [] == frame.header + frame.body;
    HeaderReadsBack(frame, frame.header + frame.body);
    FrameIsPutTogether(frame);
  }

  /** Accepted header bytes are the encoding of what was read from them. */
  lemma {:induction false} AcceptedHeaderIsEncoding(bytes: seq<Byte>)
    requires DecodeHeader(bytes).Ok?
    ensures var h := DecodeHeader(bytes).value;
      && bytes[..FRAME_HEADER_SIZE] == HeaderBytes(h.version, ToWireValue(h.frameType), h.flags, h.headerLength, h.bodyLength)
      && h.version == PROTOCOL_VERSION && h.headerLength <= MAX_HEADER_LENGTH && h.bodyLength <= MAX_BODY_LENGTH
  {
    BigEndianOfValue(bytes[4..6]);
    BigEndianOfValue(bytes[6..8]);
    BigEndianOfValue(bytes[8..12]);
    BigEndianOfValue(bytes[12..16]);
    BigEndianOfValue(bytes[16..24]);
    Powers();
    assert bytes[..24] == bytes[..4] + bytes[4..6] + bytes[6..8] + bytes[8..12] + bytes[12..16] + bytes[16..24];
  }

  /** A payload is cut into header and body, and put together again. */
  lemma {:induction false} PayloadIsCut(header: PeerFrameHeader, payload: seq<Byte>)
    requires |payload| == PayloadSize(header)
    ensures var frame := FrameFrom(header, payload);
      && |frame.header| == header.headerLength && |frame.body| == header.bodyLength && frame.header + frame.body == payload
  {
  }

  lemma {:induction false} EncodingOf(frame: PeerFrame, bytes: seq<Byte>)
    requires |bytes| >= FRAME_HEADER_SIZE && bytes[..FRAME_HEADER_SIZE] == FrameHeaderBytes(frame)
    requires bytes[FRAME_HEADER_SIZE..] == frame.header + frame.body
    ensures Encode(frame) == bytes
  {
    assert FrameHeaderBytes(frame) + frame.header + frame.body == FrameHeaderBytes(frame) + (frame.header + frame.body);
  }

  /** Bytes are accepted exactly if they are the encoding of a frame that may be encoded. */
  lemma {:induction false} EncodeDecode(bytes: seq<Byte>)
    requires Decode(bytes).Ok?
    ensures Encodable(Decode(bytes).value) && Encode(Decode(bytes).value) == bytes
  {
    AcceptedHeaderIsEncoding(bytes);
    PayloadIsCut(DecodeHeader(bytes).value, bytes[FRAME_HEADER_SIZE..]);
    EncodingOf(Decode(bytes).value, bytes);
  }

  // ---- The wire, byte by byte ----

  /** The number in `n` bytes from `offset` on, the first byte weighing most. */
  function NumberAt(bytes: seq<Byte>, offset: nat, n: nat): nat
    requires offset + n <= |bytes|
  {
    if n == 0 then 0 else NumberAt(bytes, offset, n - 1) * 256 + bytes[offset + n - 1] as int
  }

  lemma {:induction false} ReadsNumberAt(bytes: seq<Byte>, offset: nat, n: nat)
    requires offset + n <= |bytes|
    ensures ReadUint(bytes, offset, n) == NumberAt(bytes, offset, n)
  {
    if n > 0 {
      ReadsNumberAt(bytes, offset, n - 1);
      assert bytes[offset..offset + n][..n - 1] == bytes[offset..offset + n - 1];
    }
  }

  lemma {:induction false} ReadNumbers(bytes: seq<Byte>)
    requires |bytes| >= 24
    ensures ReadUint(bytes, 4, 2) == NumberAt(bytes, 4, 2) && ReadUint(bytes, 6, 2) == NumberAt(bytes, 6, 2)
    ensures ReadUint(bytes, 8, 4) == NumberAt(bytes, 8, 4) && ReadUint(bytes, 12, 4) == NumberAt(bytes, 12, 4)
    ensures ReadUint(bytes, 16, 8) == NumberAt(bytes, 16, 8)
  {
    ReadsNumberAt(bytes, 4, 2);
    ReadsNumberAt(bytes, 6, 2);
    ReadsNumberAt(bytes, 8, 4);
    ReadsNumberAt(bytes, 12, 4);
    ReadsNumberAt(bytes, 16, 8);
  }

  /** "RLDK", version 1, a type from 1 to 15, a text header of at most 1 MiB and a body of at most 1 GiB. */
  predicate HasHeader(bytes: seq<Byte>) {
    && |bytes| >= 24
    && bytes[0] == 82 && bytes[1] == 76 && bytes[2] == 68 && bytes[3] == 75
    && NumberAt(bytes, 4, 2) == 1 && 1 <= NumberAt(bytes, 6, 2) <= 15
    && NumberAt(bytes, 12, 4) <= 1048576 && NumberAt(bytes, 16, 8) <= 1073741824
  }

  /** What follows the header is as long as it says. */
  predicate IsWireForm(bytes: seq<Byte>) {
    HasHeader(bytes) && |bytes| == 24 + NumberAt(bytes, 12, 4) + NumberAt(bytes, 16, 8)
  }

  /** The frame that stands in the bytes. */
  predicate StandsFor(bytes: seq<Byte>, frame: PeerFrame)
    requires IsWireForm(bytes)
  {
    && frame.version == 1 && ToWireValue(frame.frameType) == NumberAt(bytes, 6, 2) && frame.flags == NumberAt(bytes, 8, 4)
    && frame.header == bytes[24..24 + NumberAt(bytes, 12, 4)] && frame.body == bytes[24 + NumberAt(bytes, 12, 4)..]
  }

  lemma {:induction false} HeaderIsReadIff(bytes: seq<Byte>)
    ensures DecodeHeader(bytes).Ok? <==> HasHeader(bytes)
    ensures DecodeHeader(bytes).Ok? ==>
              var h := DecodeHeader(bytes).value;
              && h.version == 1 && ToWireValue(h.frameType) == NumberAt(bytes, 6, 2) && h.flags == NumberAt(bytes, 8, 4)
              && h.headerLength == NumberAt(bytes, 12, 4) && h.bodyLength == NumberAt(bytes, 16, 8)
  {
    if |bytes| >= 24 { ReadNumbers(bytes); }
  }

  /** Bytes are accepted exactly if they have the wire form, and give the frame that stands in them. */
  lemma {:induction false} AcceptedIff(bytes: seq<Byte>)
    ensures Decode(bytes).Ok? <==> IsWireForm(bytes)
    ensures Decode(bytes).Ok? ==> StandsFor(bytes, Decode(bytes).value)
  {
    HeaderIsReadIff(bytes);
    if Decode(bytes).Ok? {
      var cut := NumberAt(bytes, 12, 4);
      assert bytes[24..][..cut] == bytes[24..24 + cut] && bytes[24..][cut..] == bytes[24 + cut..];
    }
  }

  /** A frame is encoded unless its version is not 1, its text header is above 1 MiB or its body above 1 GiB; its
      encoding has the wire form and stands for it. */
  lemma {:induction false} EncodedIff(frame: PeerFrame)
    ensures Encodable(frame) <==> frame.version == 1 && |frame.header| <= 1048576 && |frame.body| <= 1073741824
    ensures Encodable(frame) ==> IsWireForm(Encode(frame)) && StandsFor(Encode(frame), frame)
  {
    if Encodable(frame) {
      DecodeEncode(frame);
      AcceptedIff(Encode(frame));
    }
  }
}

/** PacketPacker: the wire frame.
      [ type tag: 2 bytes ][ source id: 4 bytes, little-endian ][ payload ]
    The tag is the one-byte PacketType written as a 2-byte char. */
module Packer {
  import opened Bytes
  import opened Outcomes
  import opened Values
  import opened Constant
  import opened Writing
  import opened Reading

  const HEADER_SIZE: nat := 6

  /** The static PacketPacker.ReadBufferSize, shared by every runner in the
      process: the largest payload a ReadablePacket keeps. */
  class PackerConfig {
    var readBufferSize: uint32

    constructor ()
      ensures readBufferSize == DEFAULT_READ_BUFFER_SIZE
    {
      readBufferSize := DEFAULT_READ_BUFFER_SIZE;
    }
  }

  /** What a frame carries: the header fields and the payload. */
  datatype Frame = Frame(packetType: byte, sourceId: uint32, payload: seq<byte>)

  /** The bytes PackOutgoingPacket produces. */
  function EncodeFrame(packetType: byte, sourceId: uint32, payload: seq<byte>): seq<byte> {
    Encode(CharVal(packetType)) + Encode(UIntVal(sourceId)) + payload
  }

  /** The frame's layout, byte by byte. */
  lemma {:induction false} FrameLayout(packetType: byte, sourceId: uint32, payload: seq<byte>)
    ensures var f := EncodeFrame(packetType, sourceId, payload);
      && |f| == HEADER_SIZE + |payload|
      && f[0] == packetType && f[1] == 0
      && FromLittleEndian(f[2..6]) == sourceId
      && f[6..] == payload
  {
    Pow256Values();
    var f := EncodeFrame(packetType, sourceId, payload);
    TwoBytes([0, 0], packetType);
    assert f[2..6] == Encode(UIntVal(sourceId));
    LittleEndianRoundTrip(sourceId, 4);
    assert f[6..] == payload;
  }

  /** PackIncomingPacket's slicing, with the exceptions BitConverter and
      ArraySegment raise. The type is the low byte of the 2-byte char (an
      unchecked char-to-byte cast), so byte 1 of the frame is never looked at. */
  function Unpack(readBytesCount: int, data: seq<byte>): (r: Result<Frame>)
    ensures r.Ok? <==> HEADER_SIZE <= readBytesCount <= |data|
    ensures r.Ok? ==> r.value.packetType == data[0]
    ensures r.Ok? ==> r.value.sourceId == FromLittleEndian(data[2..6])
    ensures r.Ok? ==> r.value.payload == data[HEADER_SIZE..readBytesCount]
  {
    if |data| == 0 then Err(ArgumentOutOfRange)       // BitConverter.ToChar(data, 0)
    else if |data| < 2 then Err(Argument)
    else if |data| == 2 then Err(ArgumentOutOfRange)  // BitConverter.ToUInt32(data, 2)
    else if |data| < 6 then Err(Argument)
    else if readBytesCount < HEADER_SIZE then Err(ArgumentOutOfRange)  // ArraySegment, count < 0
    else if readBytesCount > |data| then Err(Argument)                 // ArraySegment, past the end
    else
      var tag := Decode(CharKind, data[0..2]).ch;
      assert tag % 256 == data[0] by {
        TwoBytes(data[0..2], 0);
      }
      Ok(Frame(tag % 256, Decode(UIntKind, data[2..6]).ui, data[HEADER_SIZE..readBytesCount]))
  }

  /** Decoding a frame at its own length gives back the header and the payload,
      whatever the read buffer holds after it. */
  lemma {:induction false} FrameRoundTrip(packetType: byte, sourceId: uint32, payload: seq<byte>, trailing: seq<byte>)
    ensures var f := EncodeFrame(packetType, sourceId, payload);
      Unpack(|f|, f + trailing) == Ok(Frame(packetType, sourceId, payload))
  {
    var f := EncodeFrame(packetType, sourceId, payload);
    FrameLayout(packetType, sourceId, payload);
    assert (f + trailing)[2..6] == f[2..6];
    assert (f + trailing)[HEADER_SIZE..|f|] == f[6..];
  }

  /** Conversely, a decoded frame re-encodes to the bytes it was read from
      exactly when byte 1, which decoding ignores, is zero. */
  lemma {:induction false} UnpackThenEncode(readBytesCount: int, data: seq<byte>)
    requires Unpack(readBytesCount, data).Ok?
    ensures var fr := Unpack(readBytesCount, data).value;
      EncodeFrame(fr.packetType, fr.sourceId, fr.payload) == data[..readBytesCount] <==> data[1] == 0
  {
    var fr := Unpack(readBytesCount, data).value;
    var f := EncodeFrame(fr.packetType, fr.sourceId, fr.payload);
    FrameLayout(fr.packetType, fr.sourceId, fr.payload);
    if data[1] == 0 {
      FromLittleEndianRoundTrip(data[2..6]);
      SameFrameBytes(f, data[..readBytesCount]);
    }
  }

  /** Two byte sequences agreeing on the tag, the source id bytes and the rest are equal. */
  lemma SameFrameBytes(f: seq<byte>, g: seq<byte>)
    requires |f| == |g| >= HEADER_SIZE
    requires f[0] == g[0] && f[1] == g[1] && f[2..6] == g[2..6] && f[6..] == g[6..]
    ensures f == g
  {
    forall i | 0 <= i < |f|
      ensures f[i] == g[i]
    {
      if 2 <= i < 6 {
        assert f[i] == f[2..6][i - 2];
      } else if 6 <= i {
        assert f[i] == f[6..][i - 6];
      }
    }
  }

  /** The payload a ReadablePacket built from the frame keeps. */
  function Kept(fr: Frame, readBufferSize: uint32): Option<seq<byte>> {
    if |fr.payload| <= readBufferSize then Some(fr.payload) else None
  }

  /** ReadByte on the ReadablePacket PackIncomingPacket built from the frame:
      the control code of a SYSTEM frame. */
  function LeadingByte(fr: Frame, readBufferSize: uint32): (r: Result<byte>)
    ensures r.Ok? <==> 1 <= |fr.payload| <= readBufferSize
    ensures r.Ok? ==> r.value == fr.payload[0]
  {
    var s := ReadValue(Kept(fr, readBufferSize), Cursor(0, 0), ByteKind);
    if s.result.Ok? then Ok(s.result.value.b) else Err(s.result.error)
  }

  /** ReadUInt right after that ReadByte: the four payload bytes after the code. */
  function UIntAfterLeadingByte(fr: Frame, readBufferSize: uint32): (r: Result<uint32>)
    requires LeadingByte(fr, readBufferSize).Ok?
    ensures r.Ok? <==> 5 <= |fr.payload|
    ensures r.Ok? ==> r.value == FromLittleEndian(fr.payload[1..5])
  {
    var s := ReadValue(Kept(fr, readBufferSize), Cursor(1, 1), UIntKind);
    if s.result.Ok? then Ok(s.result.value.ui) else Err(s.result.error)
  }

  /** PackOutgoingPacket(sourceClientID, writablePacket): the tag as a char,
      the given source id, then the packet's bytes. */
  method PackOutgoingPacket(sourceClientId: uint32, packet: WritablePacket) returns (frame: seq<byte>)
    requires packet.Valid() && !packet.disposed
    ensures frame == EncodeFrame(packet.packetType, sourceClientId, packet.buffer)
  {
    var data: seq<byte> := [];
    data := data + Encode(CharVal(packet.packetType));
    data := data + Encode(UIntVal(sourceClientId));
    data := data + packet.ToArray();
    frame := data;
  }

  /** The one-argument form the engines call: the packet's own source id. */
  method PackOwnPacket(packet: WritablePacket) returns (frame: seq<byte>)
    requires packet.Valid() && !packet.disposed
    ensures frame == EncodeFrame(packet.packetType, packet.sourceClientId, packet.buffer)
  {
    frame := PackOutgoingPacket(packet.sourceClientId, packet);
  }

  /** PackIncomingPacket(readBytesCount, data): slices the frame and builds a
      ReadablePacket, which keeps the payload only within the shared read
      buffer size. */
  method PackIncomingPacket(readBytesCount: int, data: seq<byte>, config: PackerConfig)
    returns (r: Result<ReadablePacket>)
    ensures r.Err? <==> Unpack(readBytesCount, data).Err?
    ensures r.Err? ==> r.error == Unpack(readBytesCount, data).error
    ensures r.Ok? ==>
      var fr := Unpack(readBytesCount, data).value;
      && fresh(r.value) && r.value.Valid() && !r.value.disposed
      && (r.value.receivedData != null ==> fresh(r.value.receivedData))
      && r.value.packetType == fr.packetType && r.value.sourceClientId == fr.sourceId
      && r.value.Data() == (if |fr.payload| <= config.readBufferSize then Some(fr.payload) else None)
      && r.value.Position() == Cursor(0, 0)
  {
    var unpacked := Unpack(readBytesCount, data);
    if unpacked.Err? {
      return Err(unpacked.error);
    }
    var fr := unpacked.value;
    var packet := new ReadablePacket(fr.packetType, fr.sourceId, fr.payload, config.readBufferSize);
    r := Ok(packet);
  }

  /** GetWritablePacket(): an empty CUSTOM packet. */
  method GetWritablePacket() returns (packet: WritablePacket)
    ensures fresh(packet) && packet.Valid() && !packet.disposed
    ensures packet.packetType == CUSTOM && packet.sourceClientId == SERVER_ID && packet.buffer == []
  {
    packet := new WritablePacket(CUSTOM, SERVER_ID);
  }

  /** GetWritablePacket(data): a CUSTOM packet holding a copy of the bytes. */
  method GetWritablePacketWith(data: seq<byte>) returns (packet: WritablePacket)
    ensures fresh(packet) && packet.Valid() && !packet.disposed
    ensures packet.packetType == CUSTOM && packet.sourceClientId == SERVER_ID && packet.buffer == data
  {
    packet := new WritablePacket.WithData(CUSTOM, SERVER_ID, data);
  }
}

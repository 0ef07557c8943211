/** The two engines against each other: what each side's decisions make of
    the frames the other side writes. `trailing` stands for whatever the
    read buffer held after the frame, `rbs` for the receiver's shared read
    buffer size. */
module Protocol {
  import opened Bytes
  import opened Outcomes
  import opened Values
  import opened Constant
  import opened Packer
  import opened ServerEngine
  import opened ClientEngine

  /** A small int written by Write(int) is its byte followed by three zeros,
      so ReadByte still finds the code. */
  lemma SmallIntBytes(c: byte)
    ensures Encode(IntVal(c)) == [c, 0, 0, 0]
  {
    Pow256Values();
    assert TwosComplement(c, 4) == c;
    assert LittleEndian(c, 4) == [c] + LittleEndian(0, 3);
  }

  lemma FourBytes(s: seq<byte>)
    requires |s| == 4
    ensures FromLittleEndian(s) == s[0] as int + 256 * (s[1] as int) + 65536 * (s[2] as int) + 16777216 * (s[3] as int)
  {
    var a := s[1..];
    var b := a[1..];
    var c := b[1..];
    assert c[1..] == [];
    assert FromLittleEndian(c) == s[3] as int;
    assert FromLittleEndian(b) == s[2] as int + 256 * (s[3] as int);
    assert FromLittleEndian(a) == s[1] as int + 256 * (s[2] as int) + 65536 * (s[3] as int);
  }

  /** The server's id announcement reaches the client as that id. */
  lemma {:induction false} AnnouncementDelivered(id: uint32, trailing: seq<byte>, rbs: uint32)
    requires rbs >= 5
    ensures var f := IdFrame(id);
      JudgeAnnouncement(|f|, f + trailing, rbs) == Assign(id)
  {
    var payload := Encode(ByteVal(SERVER_CLIENT_ID_SEND)) + Encode(UIntVal(id));
    FrameRoundTrip(SYSTEM, SERVER_ID, payload, trailing);
    assert payload[1..5] == LittleEndian(id, 4);
    Pow256Values();
    LittleEndianRoundTrip(id, 4);
  }

  /** The client's reply is the one the server waits for: it is confirmed. */
  lemma {:induction false} ReplyConfirmed(id: uint32, trailing: seq<byte>, rbs: uint32)
    requires rbs >= 1
    ensures var f := ReplyFrame(id);
      JudgeReply(id, |f|, f + trailing, rbs) == Confirmed
  {
    FrameRoundTrip(SYSTEM, id, Encode(ByteVal(CLIENT_RECEIVED_ID_WELL)), trailing);
  }

  /** The id the client takes from the resent announcement, which carries the
      code as an int: ReadUInt starts one byte into that int, at three zero
      bytes followed by the id's low byte. */
  function Misread(id: uint32): uint32 {
    (id % 256) * 0x100_0000
  }

  /** Only id 0, which is never handed out, survives the misreading. */
  lemma MisreadDiffers(id: uint32)
    requires id != SERVER_ID
    ensures Misread(id) != id
  {
    var b := id % 256;
    assert Misread(id) == 256 * (b * 65536);
    if b != 0 {
      assert Misread(id) % 256 == 0;
    }
  }

  /** The resent announcement is read as a different id. */
  lemma {:induction false} ResendMisread(id: uint32, trailing: seq<byte>, rbs: uint32)
    requires rbs >= 8
    ensures var f := IdResendFrame(id);
      JudgeAnnouncement(|f|, f + trailing, rbs) == Assign(Misread(id))
  {
    var payload := Encode(IntVal(SERVER_CLIENT_ID_SEND)) + Encode(UIntVal(id));
    FrameRoundTrip(SYSTEM, SERVER_ID, payload, trailing);
    ResendPayload(id);
  }

  /** The resend payload: the int-sized code, then the id; the four bytes
      after the first are three zeros and the id's low byte. */
  lemma ResendPayload(id: uint32)
    ensures var payload := Encode(IntVal(SERVER_CLIENT_ID_SEND)) + Encode(UIntVal(id));
      && |payload| == 8 && payload[0] == SERVER_CLIENT_ID_SEND
      && FromLittleEndian(payload[1..5]) == Misread(id)
  {
    var payload := Encode(IntVal(SERVER_CLIENT_ID_SEND)) + Encode(UIntVal(id));
    SmallIntBytes(SERVER_CLIENT_ID_SEND);
    FirstByteIsLow(id, 4);
    var misread := payload[1..5];
    assert misread == [0, 0, 0, id % 256];
    FourBytes(misread);
  }

  /** So after a resend the client replies from an id the server did not
      issue, and the server refuses the reply with its `throw new Exception()`. */
  lemma {:induction false} MisreadReplyRefused(id: uint32, trailing: seq<byte>, rbs: uint32)
    requires id != SERVER_ID
    ensures var g := ReplyFrame(Misread(id));
      JudgeReply(id, |g|, g + trailing, rbs) == ReplyVerdict.Refused(Unspecified)
  {
    MisreadDiffers(id);
    FrameRoundTrip(SYSTEM, Misread(id), Encode(ByteVal(CLIENT_RECEIVED_ID_WELL)), trailing);
  }

  /** The server's stop notice, an int-sized code, still stops the client. */
  lemma {:induction false} StopNoticeStopsClient(trailing: seq<byte>, rbs: uint32)
    requires rbs >= 4
    ensures var f := StoppedFrame();
      JudgeServerFrame(|f|, f + trailing, rbs) == StopForced
  {
    SmallIntBytes(SERVER_HAS_STOPPED);
    FrameRoundTrip(SYSTEM, SERVER_ID, Encode(IntVal(SERVER_HAS_STOPPED)), trailing);
  }

  /** A registered client's disconnect request, also an int-sized code,
      disconnects that client on the server. */
  lemma {:induction false} DisconnectRequestHonoured(id: uint32, registered: set<uint32>, trailing: seq<byte>, rbs: uint32)
    requires id in registered && rbs >= 4
    ensures var f := DisconnectFrame(id);
      JudgeLoopFrame(|f|, f + trailing, rbs, registered) == DisconnectSource(id)
  {
    SmallIntBytes(CLIENT_DISCONNECT_REQUEST);
    FrameRoundTrip(SYSTEM, id, Encode(IntVal(CLIENT_DISCONNECT_REQUEST)), trailing);
  }

  /** CUSTOM frames are delivered on both sides whatever their size: from
      the server to the client, and from a registered client to the server;
      one from any other source ends the server's read loop. */
  lemma {:induction false} CustomFramesDelivered(source: uint32, registered: set<uint32>, payload: seq<byte>,
                                                 trailing: seq<byte>, rbs: uint32)
    ensures var f := EncodeFrame(CUSTOM, SERVER_ID, payload);
      JudgeServerFrame(|f|, f + trailing, rbs) == ClientEngine.Deliver
    ensures var f := EncodeFrame(CUSTOM, source, payload);
      JudgeLoopFrame(|f|, f + trailing, rbs, registered)
        == if source in registered then ServerEngine.Deliver(source) else ServerEngine.EndLoop
  {
    FrameRoundTrip(CUSTOM, SERVER_ID, payload, trailing);
    FrameRoundTrip(CUSTOM, source, payload, trailing);
  }
}

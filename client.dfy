/** NetworkRunner.Client as a sequential state machine: the completions of
    the connect and of each read are methods the network layer calls, the
    I/O the client asks for is appended to `io` and the user callbacks it
    fires to `events`. The client has one stream and one read buffer. */
module ClientEngine {
  import opened Bytes
  import opened Outcomes
  import opened Values
  import opened Constant
  import opened Writing
  import opened Reading
  import opened Packer
  import opened RunnerCommon

  /** What the client asks of its socket. */
  datatype ClientRequest =
    | Connect(port: uint32)                          // TcpClient.BeginConnect
    | BeginRead(count: uint32, handshake: bool)      // handshake: completion runs IdReceiveCallback
    | BeginWrite(frame: seq<byte>)
    | BlockingWrite(frame: seq<byte>)                // NetworkStream.Write
    | Close

  /** The user callbacks, recorded instead of called. */
  datatype ClientEvent =
    | Started
    | Stopped
    | ConnectedToServer
    | DataReceived(count: int)

  /** The reply to the id announcement: RECEIVED_ID_WELL from the new id. */
  function ReplyFrame(id: uint32): seq<byte> {
    EncodeFrame(SYSTEM, id, Encode(ByteVal(CLIENT_RECEIVED_ID_WELL)))
  }

  /** The notice Stop(false) writes: the code as an int. */
  function DisconnectFrame(id: uint32): seq<byte> {
    EncodeFrame(SYSTEM, id, Encode(IntVal(CLIENT_DISCONNECT_REQUEST)))
  }

  /** How ClientIDReceiveCallback answers a frame. */
  datatype AnnounceVerdict =
    | Ignore              // not a SYSTEM frame from the server: dropped, no new read
    | Assign(id: uint32)  // SERVER_CLIENT_ID_SEND: the id that follows
    | Wait                // another code from the server: read again
    | Refused(error: Error)

  /** The frame in the first `count` bytes of the buffer, as the handshake reads it. */
  function JudgeAnnouncement(count: int, buffer: seq<byte>, readBufferSize: uint32): (v: AnnounceVerdict)
    ensures v == Ignore <==>
      HEADER_SIZE <= count <= |buffer| && (buffer[0] != SYSTEM || FromLittleEndian(buffer[2..6]) != SERVER_ID)
    ensures v.Assign? <==>
      && HEADER_SIZE + 5 <= count <= |buffer| && count - HEADER_SIZE <= readBufferSize
      && buffer[0] == SYSTEM && FromLittleEndian(buffer[2..6]) == SERVER_ID
      && buffer[HEADER_SIZE] == SERVER_CLIENT_ID_SEND
    ensures v.Assign? ==> v.id == FromLittleEndian(buffer[7..11])
    ensures v == Wait <==>
      && HEADER_SIZE < count <= |buffer| && count - HEADER_SIZE <= readBufferSize
      && buffer[0] == SYSTEM && FromLittleEndian(buffer[2..6]) == SERVER_ID
      && buffer[HEADER_SIZE] != SERVER_CLIENT_ID_SEND
    ensures Unpack(count, buffer).Err? ==> v == Refused(Unpack(count, buffer).error)
  {
    var unpacked := Unpack(count, buffer);
    if unpacked.Err? then Refused(unpacked.error)
    else
      var fr := unpacked.value;
      if fr.packetType != SYSTEM || fr.sourceId != SERVER_ID then Ignore
      else
        var code := LeadingByte(fr, readBufferSize);
        if code.Err? then Refused(code.error)
        else if code.value != SERVER_CLIENT_ID_SEND then Wait
        else
          var id := UIntAfterLeadingByte(fr, readBufferSize);
          SliceOfSlice(buffer, HEADER_SIZE, count, 1, 5);
          if id.Err? then Refused(id.error) else Assign(id.value)
  }

  lemma SliceOfSlice(s: seq<byte>, lo: nat, hi: nat, i: nat, j: nat)
    requires lo <= hi <= |s|
    ensures i <= j <= hi - lo ==> s[lo..hi][i..j] == s[lo + i..lo + j]
  {
    if i <= j <= hi - lo {
      assert forall k :: 0 <= k < j - i ==> s[lo..hi][i..j][k] == s[lo + i + k];
    }
  }

  /** How BeginReadCallback answers a frame. */
  datatype FrameVerdict =
    | EndLoop     // not from the server: no new read
    | StopForced  // SYSTEM SERVER_HAS_STOPPED: Stop(true)
    | Deliver     // CUSTOM: handed to OnDataReceivedFromServer
    | Rearm       // anything else
    | Fail(error: Error)

  function JudgeServerFrame(count: int, buffer: seq<byte>, readBufferSize: uint32): (v: FrameVerdict)
    ensures v == EndLoop <==> HEADER_SIZE <= count <= |buffer| && FromLittleEndian(buffer[2..6]) != SERVER_ID
    ensures v == StopForced <==>
      && HEADER_SIZE < count <= |buffer| && count - HEADER_SIZE <= readBufferSize
      && FromLittleEndian(buffer[2..6]) == SERVER_ID
      && buffer[0] == SYSTEM && buffer[HEADER_SIZE] == SERVER_HAS_STOPPED
    ensures v == Deliver <==>
      HEADER_SIZE <= count <= |buffer| && FromLittleEndian(buffer[2..6]) == SERVER_ID && buffer[0] == CUSTOM
    ensures v.Fail? <==>
      (|| Unpack(count, buffer).Err?
       || (&& HEADER_SIZE <= count <= |buffer| && FromLittleEndian(buffer[2..6]) == SERVER_ID
           && buffer[0] == SYSTEM && (count == HEADER_SIZE || count - HEADER_SIZE > readBufferSize)))
    ensures Unpack(count, buffer).Err? ==> v == Fail(Unpack(count, buffer).error)
  {
    var unpacked := Unpack(count, buffer);
    if unpacked.Err? then Fail(unpacked.error)
    else
      var fr := unpacked.value;
      if fr.sourceId != SERVER_ID then EndLoop
      else if fr.packetType == SYSTEM then
        var code := LeadingByte(fr, readBufferSize);
        if code.Err? then Fail(code.error)
        else if code.value == SERVER_HAS_STOPPED then StopForced
        else Rearm
      else if fr.packetType == CUSTOM then Deliver
      else Rearm
  }

  class Client {
    const common: Common
    var isReading: bool
    /** networkStream (the TcpClient is folded into it). */
    var stream: StreamState
    var readBuffer: array?<byte>
    var io: seq<ClientRequest>
    var events: seq<ClientEvent>

    /** Client(): the Common constructor, then Init, which sets the fields
        directly (the shared packer size keeps the value the Common
        constructor gave it). */
    constructor (packer: PackerConfig)
      modifies packer
      ensures fresh(common) && common.packer == packer
      ensures common.clientId == UINT32_MAX
      ensures common.readBufferSize == DEFAULT_READ_BUFFER_SIZE && packer.readBufferSize == DEFAULT_READ_BUFFER_SIZE
      ensures common.port == DEFAULT_PORT
      ensures !common.isReady && !common.isReadable && !common.isWritable
      ensures !isReading && stream == NoStream && readBuffer == null && io == [] && events == []
    {
      var c := new Common(packer);
      common := c;
      isReading := false;
      stream := NoStream;
      readBuffer := null;
      io := [];
      events := [];
      new;
      c.clientId := UINT32_MAX;
      c.readBufferSize := DEFAULT_READ_BUFFER_SIZE;
      c.port := DEFAULT_PORT;
    }

    /** Run: parses IPAddress (`parseError` is what IPAddress.Parse threw,
        if anything), checks the port, becomes ready and connects. */
    method Run(parseError: Option<Error>) returns (r: Result<bool>)
      modifies this`io, this`events, common`isReady
      ensures old(common.isReady) ==> r == Ok(false) && common.isReady && io == old(io) && events == old(events)
      ensures !old(common.isReady) && parseError.Some? ==>
        r == Err(parseError.value) && !common.isReady && io == old(io) && events == old(events)
      ensures !old(common.isReady) && parseError.None? && common.port > MAX_PORT ==>
        r == Err(ArgumentOutOfRange) && !common.isReady && io == old(io) && events == old(events)
      ensures !old(common.isReady) && parseError.None? && common.port <= MAX_PORT ==>
        && r == Ok(true) && common.isReady
        && events == old(events) + [Started] && io == old(io) + [Connect(common.port)]
    {
      if common.isReady {
        return Ok(false);
      }
      if parseError.Some? {
        return Err(parseError.value);
      }
      if common.port > MAX_PORT {
        return Err(ArgumentOutOfRange);
      }
      common.isReady := true;
      events := events + [Started];
      io := io + [Connect(common.port)];
      r := Ok(true);
    }

    /** BeginConnectCallback: takes the stream, allocates the read buffer at
        the current size and waits for the id. */
    method ConnectCallback()
      modifies this`stream, this`readBuffer, this`io
      ensures stream == Open && readBuffer != null && fresh(readBuffer)
      ensures readBuffer[..] == Zeros(common.readBufferSize)
      ensures io == old(io) + [BeginRead(common.readBufferSize, true)]
    {
      stream := Open;
      readBuffer := new byte[common.readBufferSize](_ => 0);
      assert readBuffer[..] == Zeros(common.readBufferSize);
      io := io + [BeginRead(common.readBufferSize, true)];
    }

    /** EndRead: the received bytes are written over the front of the buffer. */
    method Land(received: seq<byte>)
      requires readBuffer != null && |received| <= readBuffer.Length
      modifies readBuffer
      ensures readBuffer[..] == received + old(readBuffer[..])[|received|..]
    {
      forall i | 0 <= i < |received| {
        readBuffer[i] := received[i];
      }
    }

    /** Array.Clear(readBuffer, 0, n). */
    method ClearFront(n: nat)
      requires readBuffer != null && n <= readBuffer.Length
      modifies readBuffer
      ensures readBuffer[..] == Zeros(n) + old(readBuffer[..])[n..]
    {
      forall i | 0 <= i < n {
        readBuffer[i] := 0;
      }
    }

    /** BeginRead(readBuffer, 0, count): needs an open stream and a count
        that fits the buffer. */
    method ArmRead(count: uint32, handshake: bool) returns (r: Outcome)
      requires readBuffer != null
      modifies this`io
      ensures stream != Open ==> r == Threw(StreamFault(stream)) && io == old(io)
      ensures stream == Open && count > readBuffer.Length ==> r == Threw(ArgumentOutOfRange) && io == old(io)
      ensures stream == Open && count <= readBuffer.Length ==> r == Completed && io == old(io) + [BeginRead(count, handshake)]
    {
      if stream != Open {
        return Threw(StreamFault(stream));
      }
      if count > readBuffer.Length {
        return Threw(ArgumentOutOfRange);
      }
      io := io + [BeginRead(count, handshake)];
      r := Completed;
    }

    /** ClientIDReceiveCallback, `received` being the bytes the read
        completed with. On the id announcement the client takes the id,
        replies, opens for reading and writing and starts its read loop. */
    method IdReceiveCallback(received: seq<byte>) returns (r: Outcome)
      requires readBuffer != null && |received| <= readBuffer.Length
      modifies this`io, this`events, this`isReading, readBuffer,
        common`clientId, common`isReadable, common`isWritable
      ensures old(stream) != Open ==>
        && r == Threw(StreamFault(old(stream))) && readBuffer[..] == old(readBuffer[..])
        && io == old(io) && events == old(events) && isReading == old(isReading)
        && common.clientId == old(common.clientId)
        && common.isReadable == old(common.isReadable) && common.isWritable == old(common.isWritable)
      ensures old(stream) == Open ==>
        var buf := received + old(readBuffer[..])[|received|..];
        var v := JudgeAnnouncement(|received|, buf, common.packer.readBufferSize);
        && (!v.Assign? ==>
              && readBuffer[..] == buf && events == old(events) && isReading == old(isReading)
              && common.clientId == old(common.clientId)
              && common.isReadable == old(common.isReadable) && common.isWritable == old(common.isWritable)
              && (v.Refused? ==> r == Threw(v.error) && io == old(io))
              && (v == Ignore ==> r == Completed && io == old(io))
              && (v == Wait ==>
                    if common.readBufferSize > readBuffer.Length then r == Threw(ArgumentOutOfRange) && io == old(io)
                    else r == Completed && io == old(io) + [BeginRead(common.readBufferSize, true)]))
        && (v.Assign? ==>
              var n := common.readBufferSize;
              var armed := !old(isReading) && n <= readBuffer.Length;
              && common.clientId == v.id && common.isReadable && common.isWritable
              && r == (if !old(isReading) && n > readBuffer.Length then Threw(IndexOutOfRange) else Completed)
              && isReading == (old(isReading) || armed)
              && readBuffer[..] == (if armed then Zeros(n) + buf[n..] else buf)
              && io == old(io) + [BeginWrite(ReplyFrame(v.id))] + (if armed then [BeginRead(n, false)] else [])
              && events == old(events) + (if r == Completed then [ConnectedToServer] else []))
    {
      if stream != Open {
        return Threw(StreamFault(stream));
      }
      Land(received);
      var v := JudgeAnnouncement(|received|, readBuffer[..], common.packer.readBufferSize);
      match v {
        case Refused(e) =>
          return Threw(e);
        case Ignore =>
          return Completed;
        case Wait =>
          r := ArmRead(common.readBufferSize, true);
        case Assign(id) =>
          r := Welcome(id);
      }
    }

    /** The SERVER_CLIENT_ID_SEND branch: takes the id, replies, opens for
        reading and writing, starts the read loop and reports the connection. */
    method Welcome(id: uint32) returns (r: Outcome)
      requires readBuffer != null && stream == Open
      modifies this`io, this`events, this`isReading, readBuffer,
        common`clientId, common`isReadable, common`isWritable
      ensures var n := common.readBufferSize;
        var armed := !old(isReading) && n <= readBuffer.Length;
        && common.clientId == id && common.isReadable && common.isWritable
        && r == (if !old(isReading) && n > readBuffer.Length then Threw(IndexOutOfRange) else Completed)
        && isReading == (old(isReading) || armed)
        && readBuffer[..] == (if armed then Zeros(n) + old(readBuffer[..])[n..] else old(readBuffer[..]))
        && io == old(io) + [BeginWrite(ReplyFrame(id))] + (if armed then [BeginRead(n, false)] else [])
        && events == old(events) + (if r == Completed then [ConnectedToServer] else [])
    {
      common.clientId := id;
      var reply := PackReply(id);
      io := io + [BeginWrite(reply)];
      common.isReadable := true;
      common.isWritable := true;
      r := Read();
      if r == Completed {
        events := events + [ConnectedToServer];
      }
    }

    /** The RECEIVED_ID_WELL reply, written into a SYSTEM packet from the new
        id and packed. */
    static method PackReply(id: uint32) returns (data: seq<byte>)
      ensures data == ReplyFrame(id)
    {
      var packet := new WritablePacket(SYSTEM, id);
      packet.Write(ByteVal(CLIENT_RECEIVED_ID_WELL));
      data := PackOwnPacket(packet);
      packet.Dispose();
    }

    /** Send(writablePacket): packs the packet and writes it while writable. */
    method Send(packet: WritablePacket) returns (r: Outcome)
      requires packet.Valid() && !packet.disposed
      modifies this`io
      ensures !common.isWritable ==> r == Completed && io == old(io)
      ensures common.isWritable && stream != Open ==> r == Threw(StreamFault(stream)) && io == old(io)
      ensures common.isWritable && stream == Open ==>
        r == Completed && io == old(io) + [BeginWrite(EncodeFrame(packet.packetType, packet.sourceClientId, packet.buffer))]
    {
      if !common.isWritable {
        return Completed;
      }
      var data := PackOwnPacket(packet);
      if stream != Open {
        return Threw(StreamFault(stream));
      }
      io := io + [BeginWrite(data)];
      r := Completed;
    }

    /** Read(): starts the read loop unless it runs already: clears the
        buffer, sets IsReading and reads. */
    method Read() returns (r: Outcome)
      modifies this`io, this`isReading, readBuffer
      ensures !common.isReadable || old(isReading) ==>
        r == Completed && io == old(io) && isReading == old(isReading)
        && (readBuffer != null ==> readBuffer[..] == old(readBuffer[..]))
      ensures common.isReadable && !old(isReading) && readBuffer == null ==>
        r == Threw(ArgumentNull) && io == old(io) && !isReading
      ensures common.isReadable && !old(isReading) && readBuffer != null ==>
        if common.readBufferSize > readBuffer.Length then
          r == Threw(IndexOutOfRange) && io == old(io) && !isReading && readBuffer[..] == old(readBuffer[..])
        else
          && isReading
          && readBuffer[..] == Zeros(common.readBufferSize) + old(readBuffer[..])[common.readBufferSize..]
          && (stream != Open ==> r == Threw(StreamFault(stream)) && io == old(io))
          && (stream == Open ==> r == Completed && io == old(io) + [BeginRead(common.readBufferSize, false)])
    {
      if !common.isReadable || isReading {
        return Completed;
      }
      if readBuffer == null {
        return Threw(ArgumentNull);
      }
      if common.readBufferSize > readBuffer.Length {
        return Threw(IndexOutOfRange);
      }
      ClearFront(common.readBufferSize);
      isReading := true;
      r := ArmRead(common.readBufferSize, false);
    }

    /** StopRead(): the next completed read ends the loop. */
    method StopRead()
      modifies this`isReading
      ensures !isReading
    {
      isReading := false;
    }

    /** BeginReadCallback, `received` being the bytes the read completed
        with. A frame not from the server ends the loop; the server's stop
        notice stops the client without a notice of its own; a CUSTOM frame
        is delivered; every other frame re-arms the read. */
    method ReadCallback(received: seq<byte>) returns (r: Outcome)
      requires readBuffer != null && |received| <= readBuffer.Length
      modifies this`io, this`events, this`stream, readBuffer,
        common`isReady, common`isReadable, common`isWritable
      ensures !old(common.isReady) || !isReading ==>
        && r == Completed && io == old(io) && events == old(events) && stream == old(stream)
        && readBuffer[..] == old(readBuffer[..]) && common.isReady == old(common.isReady)
        && common.isReadable == old(common.isReadable) && common.isWritable == old(common.isWritable)
      ensures old(common.isReady) && isReading && old(stream) != Open ==>
        && r == Threw(StreamFault(old(stream))) && io == old(io) && events == old(events) && stream == old(stream)
        && readBuffer[..] == old(readBuffer[..]) && common.isReady
        && common.isReadable == old(common.isReadable) && common.isWritable == old(common.isWritable)
      ensures old(common.isReady) && isReading && old(stream) == Open ==>
        var buf := received + old(readBuffer[..])[|received|..];
        var v := JudgeServerFrame(|received|, buf, common.packer.readBufferSize);
        && (v == StopForced ==>
              && r == Completed && readBuffer[..] == buf
              && io == old(io) + [Close] && events == old(events) + [Stopped] && stream == Closed
              && !common.isReady && !common.isReadable && !common.isWritable)
        && (v != StopForced ==>
              && stream == old(stream) && common.isReady
              && common.isReadable == old(common.isReadable) && common.isWritable == old(common.isWritable)
              && events == old(events) + (if v == Deliver then [DataReceived(|received|)] else [])
              && (v.Fail? || v == EndLoop ==>
                    r == (if v.Fail? then Threw(v.error) else Completed) && readBuffer[..] == buf && io == old(io))
              && (v == Deliver || v == Rearm ==>
                    if common.readBufferSize > readBuffer.Length then
                      r == Threw(IndexOutOfRange) && readBuffer[..] == buf && io == old(io)
                    else
                      && r == Completed
                      && readBuffer[..] == Zeros(common.readBufferSize) + buf[common.readBufferSize..]
                      && io == old(io) + [BeginRead(common.readBufferSize, false)]))
    {
      if !common.isReady || !isReading {
        return Completed;
      }
      if stream != Open {
        return Threw(StreamFault(stream));
      }
      Land(received);
      var v := JudgeServerFrame(|received|, readBuffer[..], common.packer.readBufferSize);
      r := Respond(v, |received|);
    }

    /** What BeginReadCallback does with its verdict on a frame of `count` bytes. */
    method Respond(v: FrameVerdict, count: int) returns (r: Outcome)
      requires readBuffer != null && common.isReady && stream == Open
      modifies this`io, this`events, this`stream, readBuffer,
        common`isReady, common`isReadable, common`isWritable
      ensures v == StopForced ==>
        && r == Completed && readBuffer[..] == old(readBuffer[..])
        && io == old(io) + [Close] && events == old(events) + [Stopped] && stream == Closed
        && !common.isReady && !common.isReadable && !common.isWritable
      ensures v != StopForced ==>
        && stream == old(stream) && common.isReady
        && common.isReadable == old(common.isReadable) && common.isWritable == old(common.isWritable)
        && events == old(events) + (if v == Deliver then [DataReceived(count)] else [])
        && (v.Fail? || v == EndLoop ==>
              r == (if v.Fail? then Threw(v.error) else Completed) && readBuffer[..] == old(readBuffer[..]) && io == old(io))
        && (v == Deliver || v == Rearm ==>
              if common.readBufferSize > readBuffer.Length then
                r == Threw(IndexOutOfRange) && readBuffer[..] == old(readBuffer[..]) && io == old(io)
              else
                && r == Completed
                && readBuffer[..] == Zeros(common.readBufferSize) + old(readBuffer[..])[common.readBufferSize..]
                && io == old(io) + [BeginRead(common.readBufferSize, false)])
    {
      match v {
        case Fail(e) =>
          return Threw(e);
        case EndLoop =>
          return Completed;
        case StopForced =>
          var _ := Stop(true);
          return Completed;
        case Deliver =>
          events := events + [DataReceived(count)];
        case Rearm =>
      }
      if common.readBufferSize > readBuffer.Length {
        return Threw(IndexOutOfRange);
      }
      ClearFront(common.readBufferSize);
      io := io + [BeginRead(common.readBufferSize, false)];
      r := Completed;
    }

    /** Stop(isForced): unless forced, writes the disconnect request from its
        own id first (a failed write ends Stop with the exception); then
        reports the stop, closes the stream and clears the three flags.
        IsReading is left as it is. */
    method Stop(forced: bool) returns (r: Result<bool>)
      modifies this`io, this`events, this`stream, common`isReady, common`isReadable, common`isWritable
      ensures !old(common.isReady) || (!forced && old(stream) != Open) ==>
        && r == (if old(common.isReady) then Err(StreamFault(old(stream))) else Ok(false))
        && io == old(io) && events == old(events) && stream == old(stream)
        && common.isReady == old(common.isReady)
        && common.isReadable == old(common.isReadable) && common.isWritable == old(common.isWritable)
      ensures old(common.isReady) && (forced || old(stream) == Open) ==>
        && r == Ok(true) && events == old(events) + [Stopped] && stream == Closing(old(stream))
        && io == old(io) + (if forced then [] else [BlockingWrite(DisconnectFrame(common.clientId))])
                         + (if old(stream) == NoStream then [] else [Close])
        && !common.isReady && !common.isReadable && !common.isWritable
    {
      if !common.isReady {
        return Ok(false);
      }
      if !forced {
        if stream != Open {
          return Err(StreamFault(stream));
        }
        var data := PackDisconnect(common.clientId);
        io := io + [BlockingWrite(data)];
      }
      events := events + [Stopped];
      if stream != NoStream {
        io := io + [Close];
      }
      stream := Closing(stream);
      common.isReadable := false;
      common.isWritable := false;
      common.isReady := false;
      r := Ok(true);
    }

    /** The disconnect request, written into a SYSTEM packet from `id` and packed. */
    static method PackDisconnect(id: uint32) returns (data: seq<byte>)
      ensures data == DisconnectFrame(id)
    {
      var packet := new WritablePacket(SYSTEM, id);
      packet.Write(IntVal(CLIENT_DISCONNECT_REQUEST));
      data := PackOwnPacket(packet);
      packet.Dispose();
    }
  }
}

/** NetworkRunner.Common: the state the server and the client share — the
    three readiness flags, the port, the read buffer size (mirrored into the
    static PacketPacker.ReadBufferSize) and the runner's own client id. */
module RunnerCommon {
  import opened Bytes
  import opened Outcomes
  import opened Constant
  import opened Packer

  /** A NetworkStream reference: null, an open stream, or one already closed. */
  datatype StreamState = NoStream | Open | Closed

  /** What a call on a stream that is not open raises. */
  function StreamFault(s: StreamState): Error
    requires s != Open
  {
    if s == NoStream then NullReference else ObjectDisposed
  }

  /** The stream after `NetworkStream?.Close()`. */
  function Closing(s: StreamState): StreamState {
    if s == NoStream then NoStream else Closed
  }

  /** The largest port new IPEndPoint accepts. */
  const MAX_PORT: uint32 := 0xFFFF

  class Common {
    /** The shared PacketPacker.ReadBufferSize. */
    const packer: PackerConfig
    var readBufferSize: uint32
    var port: uint32
    var clientId: uint32
    var isReady: bool
    var isReadable: bool
    var isWritable: bool

    function IsRunning(): bool
      reads this
    {
      isReady && isReadable && isWritable
    }

    /** Common(): the ReadBufferSize setter with the default size, the default port. */
    constructor (packer: PackerConfig)
      modifies packer
      ensures this.packer == packer && !isReady && !isReadable && !isWritable && clientId == 0
      ensures readBufferSize == DEFAULT_READ_BUFFER_SIZE && packer.readBufferSize == DEFAULT_READ_BUFFER_SIZE
      ensures port == DEFAULT_PORT
    {
      this.packer := packer;
      readBufferSize := 0;
      port := 0;
      clientId := 0;
      isReady, isReadable, isWritable := false, false, false;
      new;
      SetReadBufferSize(DEFAULT_READ_BUFFER_SIZE);
      port := DEFAULT_PORT;
    }

    /** Common(int readBufferSize): the size goes through an unchecked (uint) cast. */
    constructor WithReadBufferSize(packer: PackerConfig, readBufferSize: int32)
      modifies packer
      ensures this.packer == packer && !isReady && !isReadable && !isWritable && clientId == 0
      ensures this.readBufferSize == UInt32OfInt(readBufferSize) && packer.readBufferSize == UInt32OfInt(readBufferSize)
      ensures port == DEFAULT_PORT
    {
      this.packer := packer;
      this.readBufferSize := 0;
      port := 0;
      clientId := 0;
      isReady, isReadable, isWritable := false, false, false;
      new;
      SetReadBufferSize(UInt32OfInt(readBufferSize));
      port := DEFAULT_PORT;
    }

    /** Common(uint port). */
    constructor WithPort(packer: PackerConfig, port: uint32)
      modifies packer
      ensures this.packer == packer && !isReady && !isReadable && !isWritable && clientId == 0
      ensures readBufferSize == DEFAULT_READ_BUFFER_SIZE && packer.readBufferSize == DEFAULT_READ_BUFFER_SIZE
      ensures this.port == port
    {
      this.packer := packer;
      readBufferSize := 0;
      this.port := 0;
      clientId := 0;
      isReady, isReadable, isWritable := false, false, false;
      new;
      SetReadBufferSize(DEFAULT_READ_BUFFER_SIZE);
      this.port := port;
    }

    /** Common(int readBufferSize, uint port). */
    constructor WithReadBufferSizeAndPort(packer: PackerConfig, readBufferSize: int32, port: uint32)
      modifies packer
      ensures this.packer == packer && !isReady && !isReadable && !isWritable && clientId == 0
      ensures this.readBufferSize == UInt32OfInt(readBufferSize) && packer.readBufferSize == UInt32OfInt(readBufferSize)
      ensures this.port == port
    {
      this.packer := packer;
      this.readBufferSize := 0;
      this.port := 0;
      clientId := 0;
      isReady, isReadable, isWritable := false, false, false;
      new;
      SetReadBufferSize(UInt32OfInt(readBufferSize));
      this.port := port;
    }

    /** The ReadBufferSize setter: ignored while running; otherwise it sets
        the runner's size and the shared one. */
    method SetReadBufferSize(value: uint32)
      modifies this`readBufferSize, packer
      ensures old(IsRunning()) ==> readBufferSize == old(readBufferSize) && packer.readBufferSize == old(packer.readBufferSize)
      ensures !old(IsRunning()) ==> readBufferSize == value && packer.readBufferSize == value
    {
      if IsRunning() {
        return;
      }
      readBufferSize := value;
      packer.readBufferSize := readBufferSize;
    }

    /** The Port setter: ignored while running. */
    method SetPort(value: uint32)
      modifies this`port
      ensures port == if old(IsRunning()) then old(port) else value
    {
      if IsRunning() {
        return;
      }
      port := value;
    }
  }

  /** Which constructor the runner was built with: the optional arguments of
      the four overloads. */
  method NewCommon(packer: PackerConfig, readBufferSize: Option<int32>, port: Option<uint32>) returns (c: Common)
    modifies packer
    ensures fresh(c) && c.packer == packer && !c.isReady && !c.isReadable && !c.isWritable && c.clientId == 0
    ensures c.readBufferSize == packer.readBufferSize
    ensures c.readBufferSize == if readBufferSize.Some? then UInt32OfInt(readBufferSize.value) else DEFAULT_READ_BUFFER_SIZE
    ensures c.port == if port.Some? then port.value else DEFAULT_PORT
  {
    if readBufferSize.Some? && port.Some? {
      c := new Common.WithReadBufferSizeAndPort(packer, readBufferSize.value, port.value);
    } else if readBufferSize.Some? {
      c := new Common.WithReadBufferSize(packer, readBufferSize.value);
    } else if port.Some? {
      c := new Common.WithPort(packer, port.value);
    } else {
      c := new Common(packer);
    }
  }
}

/** WritablePacket: an append-only byte list behind a packet header, with one
    typed Write per overload. */
module Writing {
  import opened Bytes
  import opened Outcomes
  import opened Values

  /** The bytes Write(string) appends for a string whose UTF-8 encoding is
      `utf8`: its length as a 32-bit int, then the bytes themselves. */
  function StringBytes(utf8: seq<byte>): (r: seq<byte>)
    requires |utf8| < 0x8000_0000
    ensures |r| == 4 + |utf8| && r[4..] == utf8
    ensures FromLittleEndian(r[..4]) == |utf8|
  {
    Pow256Values();
    LittleEndianRoundTrip(|utf8|, 4);
    Encode(IntVal(|utf8|)) + utf8
  }

  class WritablePacket {
    // Packet base: the header and the dispose-once flag.
    const sourceClientId: uint32
    var packetType: byte
    var disposed: bool
    /** How many times DisposeFunction has run. */
    ghost var disposeRuns: nat

    /** The List<byte> buffer; DisposeFunction drops it (null in the source). */
    var buffer: seq<byte>

    ghost predicate Valid()
      reads this
    {
      && disposeRuns == (if disposed then 1 else 0)
      && (disposed ==> buffer == [])
    }

    /** WritablePacket(packetType, sourceClientID): an empty buffer. */
    constructor (packetType: byte, sourceClientId: uint32)
      ensures Valid() && !disposed
      ensures this.packetType == packetType && this.sourceClientId == sourceClientId
      ensures buffer == []
    {
      this.packetType := packetType;
      this.sourceClientId := sourceClientId;
      disposed := false;
      disposeRuns := 0;
      buffer := [];
    }

    /** WritablePacket(packetType, sourceClientID, buffer): starts with a copy of the bytes. */
    constructor WithData(packetType: byte, sourceClientId: uint32, data: seq<byte>)
      ensures Valid() && !disposed
      ensures this.packetType == packetType && this.sourceClientId == sourceClientId
      ensures buffer == data
    {
      this.packetType := packetType;
      this.sourceClientId := sourceClientId;
      disposed := false;
      disposeRuns := 0;
      buffer := [] + data;
    }

    function Size(): nat
      reads this
    {
      |buffer|
    }

    function ToArray(): seq<byte>
      reads this
    {
      buffer
    }

    /** Insert(index, data): List.InsertRange, which throws unless 0 <= index <= Count. */
    method Insert(index: int, data: seq<byte>) returns (r: Outcome)
      requires Valid() && !disposed
      modifies this
      ensures Valid() && !disposed && packetType == old(packetType)
      ensures r == (if 0 <= index <= old(Size()) then Completed else Threw(ArgumentOutOfRange))
      ensures r.Completed? ==> buffer == old(buffer)[..index] + data + old(buffer)[index..]
      ensures r.Completed? ==> Size() == old(Size()) + |data|
      ensures r.Threw? ==> buffer == old(buffer)
    {
      if 0 <= index <= |buffer| {
        buffer := buffer[..index] + data + buffer[index..];
        r := Completed;
      } else {
        r := Threw(ArgumentOutOfRange);
      }
    }

    /** Write(x) for every fixed-width overload: appends GetBytes(x). */
    method Write(v: Value)
      requires Valid() && !disposed
      modifies this
      ensures Valid() && !disposed && packetType == old(packetType)
      ensures buffer == old(buffer) + Encode(v)
      ensures Size() == old(Size()) + Width(KindOf(v))
    {
      buffer := buffer + Encode(v);
    }

    /** Write(string): the encoded length as an int, then the encoded bytes. */
    method WriteString(utf8: seq<byte>)
      requires Valid() && !disposed
      requires |utf8| < 0x8000_0000
      modifies this
      ensures Valid() && !disposed && packetType == old(packetType)
      ensures buffer == old(buffer) + StringBytes(utf8)
    {
      Write(IntVal(|utf8|));
      buffer := buffer + utf8;
    }

    /** Packet.Dispose: the first call runs DisposeFunction (drop the buffer)
        and sets the flag; every later call does nothing. */
    method Dispose()
      requires Valid()
      modifies this
      ensures Valid() && disposed && disposeRuns == 1
      ensures old(disposed) ==> buffer == old(buffer) && disposeRuns == old(disposeRuns)
      ensures !old(disposed) ==> buffer == [] && disposeRuns == old(disposeRuns) + 1
      ensures packetType == old(packetType)
    {
      if !disposed {
        buffer := [];
        disposeRuns := disposeRuns + 1;
        disposed := true;
      }
    }
  }
}

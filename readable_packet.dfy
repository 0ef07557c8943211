/** ReadablePacket: a read cursor over a received payload, with a one-step Undo. */
module Reading {
  import opened Bytes
  import opened Outcomes
  import opened Values
  import Writing

  /** The cursor state: readPosition and the width of the last successful read. */
  datatype Cursor = Cursor(position: uint32, lastReadSize: uint32)

  /** What a read returns, with the cursor it leaves behind. */
  datatype Step<+T> = Step(result: Result<T>, cursor: Cursor)

  /** A payload the cursor can address: none at all (null), or one whose
      length fits the uint32 cursor. */
  predicate Addressable(data: Option<seq<byte>>) {
    data.Some? ==> |data.value| <= UINT32_MAX
  }

  /** ReadByte, ReadShort, ... ReadDouble: the guard `Length > readPosition`
      raises the library's own error; BitConverter then refuses a value that
      runs past the end. Only a read that returns moves the cursor. */
  function ReadValue(data: Option<seq<byte>>, c: Cursor, k: Kind): (s: Step<Value>)
    requires Addressable(data)
    ensures s.result.Ok? <==> data.Some? && c.position + Width(k) <= |data.value|
    ensures s.result.Err? ==> s.cursor == c
    ensures s.result.Ok? ==> s.cursor == Cursor(c.position + Width(k), Width(k))
    ensures s.result.Ok? ==> KindOf(s.result.value) == k
    ensures data.Some? && |data.value| <= c.position ==> s.result == Err(UnableToRead(TypeName(k)))
  {
    match data
    case None => Step(Err(NullReference), c)
    case Some(d) =>
      if |d| <= c.position then Step(Err(UnableToRead(TypeName(k))), c)
      else if c.position + Width(k) > |d| then Step(Err(Argument), c)
      else
        var next := c.position + Width(k);
        Step(Ok(Decode(k, d[c.position..next])), Cursor(next, Width(k)))
  }

  /** The int32 length prefix ReadInt finds at position p. */
  function LengthPrefix(d: seq<byte>, p: nat): int32
    requires p + 4 <= |d|
  {
    Decode(IntKind, d[p..p + 4]).i
  }

  /** ReadString: ReadInt for the length, then Encoding.UTF8.GetString over
      that many bytes. When GetString refuses the length, ReadInt has already
      moved the cursor past the length. */
  function ReadStringStep(data: Option<seq<byte>>, c: Cursor): (s: Step<seq<byte>>)
    requires Addressable(data)
    ensures data.None? ==> s == Step(Err(NullReference), c)
    ensures data.Some? && |data.value| <= c.position ==> s == Step(Err(UnableToRead("String")), c)
    ensures data.Some? && c.position < |data.value| < c.position + 4 ==> s == Step(Err(Argument), c)
    ensures data.Some? && c.position + 4 <= |data.value| ==>
      var n := LengthPrefix(data.value, c.position);
      && (s.result.Ok? <==> 0 <= n && c.position + 4 + n <= |data.value|)
      && (s.result.Err? ==> s == Step(Err(ArgumentOutOfRange), Cursor(c.position + 4, 4)))
    ensures s.result.Ok? ==> data.Some? && s.cursor.position <= |data.value|
    ensures s.result.Ok? ==> s.cursor.lastReadSize == |s.result.value| + 4
    ensures s.result.Ok? ==> s.cursor.position == c.position + 4 + |s.result.value|
    ensures s.result.Ok? ==> s.result.value == data.value[c.position + 4..s.cursor.position]
  {
    match data
    case None => Step(Err(NullReference), c)
    case Some(d) =>
      if |d| <= c.position then Step(Err(UnableToRead("String")), c)
      else
        var lengthRead := ReadValue(data, c, IntKind);
        if lengthRead.result.Err? then Step(Err(lengthRead.result.error), c)
        else
          var length := lengthRead.result.value.i;
          var start := lengthRead.cursor.position;
          if length < 0 || start + length > |d| then Step(Err(ArgumentOutOfRange), lengthRead.cursor)
          else Step(Ok(d[start..start + length]), Cursor(start + length, length + 4))
  }

  /** Undo: `readPosition -= lastReadSize` in unchecked uint arithmetic; the
      last read size is kept, so a second Undo rewinds again. */
  function Rewind(c: Cursor): Cursor {
    Cursor(SubUInt32(c.position, c.lastReadSize), c.lastReadSize)
  }

  /** Undo right after a successful read returns to where that read began. */
  lemma UndoAfterRead(data: Option<seq<byte>>, c: Cursor, k: Kind)
    requires Addressable(data)
    requires ReadValue(data, c, k).result.Ok?
    ensures Rewind(ReadValue(data, c, k).cursor).position == c.position
  {
  }

  /** ReadString records the whole length plus string, so one Undo rewinds both. */
  lemma UndoAfterReadString(data: Option<seq<byte>>, c: Cursor)
    requires Addressable(data)
    requires ReadStringStep(data, c).result.Ok?
    ensures Rewind(ReadStringStep(data, c).cursor).position == c.position
  {
  }

  /** A value written by WritablePacket.Write reads back, at the offset it was
      written at, as the same value, whatever precedes and follows it. */
  lemma {:induction false} ReadAfterWrite(before: seq<byte>, v: Value, after: seq<byte>, last: uint32)
    requires |before + Encode(v) + after| <= UINT32_MAX
    ensures ReadValue(Some(before + Encode(v) + after), Cursor(|before|, last), KindOf(v))
         == Step(Ok(v), Cursor(|before| + Width(KindOf(v)), Width(KindOf(v))))
  {
    var d := before + Encode(v) + after;
    assert d[|before|..|before| + Width(KindOf(v))] == Encode(v);
    ValueRoundTrip(v);
  }

  /** A string written by WritablePacket.WriteString reads back whole, and the
      cursor ends right after it. */
  lemma {:induction false} ReadStringAfterWrite(before: seq<byte>, utf8: seq<byte>, after: seq<byte>, last: uint32)
    requires |utf8| < 0x8000_0000
    requires |before + Writing.StringBytes(utf8) + after| <= UINT32_MAX
    ensures ReadStringStep(Some(before + Writing.StringBytes(utf8) + after), Cursor(|before|, last))
         == Step(Ok(utf8), Cursor(|before| + 4 + |utf8|, |utf8| + 4))
  {
    var d := before + Writing.StringBytes(utf8) + after;
    assert d == before + Encode(IntVal(|utf8|)) + (utf8 + after);
    ReadAfterWrite(before, IntVal(|utf8|), utf8 + after, last);
    assert d[|before| + 4..|before| + 4 + |utf8|] == utf8;
  }

  /** The bytes a sequence of Write calls appends. */
  function Serialize(vs: seq<Value>): (r: seq<byte>)
  {
    if vs == [] then [] else Encode(vs[0]) + Serialize(vs[1..])
  }

  function Kinds(vs: seq<Value>): (r: seq<Kind>)
    ensures |r| == |vs| && forall i :: 0 <= i < |vs| ==> r[i] == KindOf(vs[i])
  {
    if vs == [] then [] else [KindOf(vs[0])] + Kinds(vs[1..])
  }

  /** Reads of the given kinds, one after another, stopping at the first that fails. */
  function ReadValues(data: Option<seq<byte>>, c: Cursor, ks: seq<Kind>): (s: Step<seq<Value>>)
    requires Addressable(data)
    decreases |ks|
  {
    if ks == [] then Step(Ok([]), c)
    else
      var first := ReadValue(data, c, ks[0]);
      if first.result.Err? then Step(Err(first.result.error), first.cursor)
      else
        var rest := ReadValues(data, first.cursor, ks[1..]);
        if rest.result.Err? then rest
        else Step(Ok([first.result.value] + rest.result.value), rest.cursor)
  }

  /** Reading back, in order and with matching types, what a sequence of
      Write calls appended returns exactly the values written. */
  lemma {:induction false} ReadValuesAfterWrites(before: seq<byte>, vs: seq<Value>, after: seq<byte>, last: uint32)
    requires |before + Serialize(vs) + after| <= UINT32_MAX
    ensures ReadValues(Some(before + Serialize(vs) + after), Cursor(|before|, last), Kinds(vs)).result == Ok(vs)
    decreases |vs|
  {
    if vs != [] {
      var d := before + Serialize(vs) + after;
      var w := Width(KindOf(vs[0]));
      SerializeFront(before, vs, after);
      ReadAfterWrite(before, vs[0], Serialize(vs[1..]) + after, last);
      ReadValuesAfterWrites(before + Encode(vs[0]), vs[1..], after, w);
      assert Kinds(vs)[1..] == Kinds(vs[1..]);
      assert [vs[0]] + vs[1..] == vs;
    }
  }

  /** The first value's bytes, seen from either side. */
  lemma SerializeFront(before: seq<byte>, vs: seq<Value>, after: seq<byte>)
    requires vs != []
    ensures before + Serialize(vs) + after == before + Encode(vs[0]) + (Serialize(vs[1..]) + after)
    ensures before + Serialize(vs) + after == (before + Encode(vs[0])) + Serialize(vs[1..]) + after
    ensures |before + Encode(vs[0])| == |before| + Width(KindOf(vs[0]))
  {
    Regroup(before, Encode(vs[0]), Serialize(vs[1..]), after);
  }

  lemma Regroup(a: seq<byte>, b: seq<byte>, c: seq<byte>, d: seq<byte>)
    ensures a + (b + c) + d == a + b + (c + d) == (a + b) + c + d
  {
  }

  class ReadablePacket {
    // Packet base: the header and the dispose-once flag.
    const sourceClientId: uint32
    var packetType: byte
    var disposed: bool
    /** How many times DisposeFunction has run. */
    ghost var disposeRuns: nat

    /** The payload, or null when the constructor refused it or after Dispose. */
    var receivedData: array?<byte>
    var readPosition: uint32
    var lastReadSize: uint32

    ghost predicate Valid()
      reads this, receivedData
    {
      && disposeRuns == (if disposed then 1 else 0)
      && (disposed ==> receivedData == null && readPosition == 0 && lastReadSize == 0)
      && Addressable(Data())
    }

    /** ToArray: the payload (null is None). */
    function Data(): Option<seq<byte>>
      reads this, receivedData
    {
      if receivedData == null then None else Some(receivedData[..])
    }

    function Position(): Cursor
      reads this
    {
      Cursor(readPosition, lastReadSize)
    }

    /** ReadablePacket(packetType, sourceClientID, data): a payload longer than
        the shared read buffer size is not kept, but the header still is. */
    constructor (packetType: byte, sourceClientId: uint32, data: seq<byte>, readBufferSize: uint32)
      ensures Valid() && !disposed
      ensures this.packetType == packetType && this.sourceClientId == sourceClientId
      ensures Data() == if |data| <= readBufferSize then Some(data) else None
      ensures receivedData != null ==> fresh(receivedData)
      ensures Position() == Cursor(0, 0)
    {
      this.packetType := packetType;
      this.sourceClientId := sourceClientId;
      disposed := false;
      disposeRuns := 0;
      readPosition := 0;
      lastReadSize := 0;
      if |data| > readBufferSize {
        receivedData := null;
      } else {
        var payload := new byte[|data|](i requires 0 <= i < |data| => data[i]);
        assert payload[..] == data;
        receivedData := payload;
      }
    }

    /** ReadablePacket(packetType, sourceClientID, data, startReadPosition):
        the start position is cast from int to uint; a refused payload leaves
        the position at 0. */
    constructor WithStart(packetType: byte, sourceClientId: uint32, data: seq<byte>, readBufferSize: uint32,
                          startReadPosition: int32)
      ensures Valid() && !disposed
      ensures this.packetType == packetType && this.sourceClientId == sourceClientId
      ensures Data() == if |data| <= readBufferSize then Some(data) else None
      ensures receivedData != null ==> fresh(receivedData)
      ensures Position() == Cursor(if |data| <= readBufferSize then UInt32OfInt(startReadPosition) else 0, 0)
    {
      this.packetType := packetType;
      this.sourceClientId := sourceClientId;
      disposed := false;
      disposeRuns := 0;
      readPosition := 0;
      lastReadSize := 0;
      if |data| > readBufferSize {
        receivedData := null;
      } else {
        var payload := new byte[|data|](i requires 0 <= i < |data| => data[i]);
        assert payload[..] == data;
        receivedData := payload;
        readPosition := UInt32OfInt(startReadPosition);
      }
    }

    /** Clear: Array.Clear over the whole payload; the length and the cursor stay. */
    method Clear() returns (r: Outcome)
      requires Valid()
      modifies receivedData
      ensures Valid()
      ensures r == (if receivedData == null then Threw(NullReference) else Completed)
      ensures receivedData != null ==> receivedData[..] == Zeros(receivedData.Length)
    {
      if receivedData == null {
        r := Threw(NullReference);
      } else {
        forall i | 0 <= i < receivedData.Length {
          receivedData[i] := 0;
        }
        r := Completed;
      }
    }

    method Undo()
      requires Valid()
      modifies this`readPosition
      ensures Valid()
      ensures Position() == Rewind(old(Position()))
    {
      readPosition := SubUInt32(readPosition, lastReadSize);
    }

    method ResetRead()
      requires Valid()
      modifies this`readPosition, this`lastReadSize
      ensures Valid()
      ensures Position() == Cursor(0, 0)
    {
      readPosition := 0;
      lastReadSize := 0;
    }

    /** ReadByte ... ReadDouble, by the kind of the overload. */
    method Read(k: Kind) returns (r: Result<Value>)
      requires Valid()
      modifies this`readPosition, this`lastReadSize
      ensures Valid()
      ensures Step(r, Position()) == ReadValue(Data(), old(Position()), k)
    {
      if receivedData == null {
        return Err(NullReference);
      }
      if receivedData.Length <= readPosition {
        return Err(UnableToRead(TypeName(k)));
      }
      if readPosition + Width(k) > receivedData.Length {
        return Err(Argument);
      }
      var value := Decode(k, receivedData[readPosition..readPosition + Width(k)]);
      readPosition := readPosition + Width(k);
      lastReadSize := Width(k);
      r := Ok(value);
    }

    method ReadString() returns (r: Result<seq<byte>>)
      requires Valid()
      modifies this`readPosition, this`lastReadSize
      ensures Valid()
      ensures Step(r, Position()) == ReadStringStep(Data(), old(Position()))
    {
      if receivedData == null {
        return Err(NullReference);
      }
      if receivedData.Length <= readPosition {
        return Err(UnableToRead("String"));
      }
      var lengthRead := Read(IntKind);
      if lengthRead.Err? {
        return Err(lengthRead.error);
      }
      var length: int := lengthRead.value.i;
      if length < 0 || readPosition + length > receivedData.Length {
        return Err(ArgumentOutOfRange);
      }
      var value := receivedData[readPosition..readPosition + length];
      readPosition := readPosition + length;
      lastReadSize := length + 4;
      r := Ok(value);
    }

    /** Packet.Dispose: the first call runs DisposeFunction (drop the payload,
        reset the cursor) and sets the flag; every later call does nothing. */
    method Dispose()
      requires Valid()
      modifies this
      ensures Valid() && disposed && disposeRuns == 1
      ensures old(disposed) ==> Data() == old(Data()) && Position() == old(Position())
      ensures !old(disposed) ==> Data() == None && Position() == Cursor(0, 0)
      ensures disposeRuns == (if old(disposed) then old(disposeRuns) else old(disposeRuns) + 1)
      ensures packetType == old(packetType)
    {
      if !disposed {
        receivedData := null;
        readPosition := 0;
        lastReadSize := 0;
        disposeRuns := disposeRuns + 1;
        disposed := true;
      }
    }
  }
}

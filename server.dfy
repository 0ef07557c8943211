/** NetworkRunner.Server as a sequential state machine. Every asynchronous
    completion (accept, write done, read done) is a method the network layer
    calls; the I/O the server asks for is appended to `io`, and the user
    callbacks it fires are appended to `events`. The NetTcpClient objects
    are the entries of `conns`; a handle (an index into it) stands for the
    object reference that the dictionary and the callbacks share. */
module ServerEngine {
  import opened Bytes
  import opened Outcomes
  import opened Values
  import opened Constant
  import opened Writing
  import opened Reading
  import opened Packer
  import opened Utility
  import opened RunnerCommon

  /** The largest backlog TcpListener.Start takes after the (int) cast. */
  const MAX_BACKLOG: uint32 := 0x7FFF_FFFF

  /** A NetTcpClient reference: its index in the server's `conns`. */
  type Handle = nat

  /** What the server asks of the sockets; `target` is the connection whose
      stream is used. */
  datatype IoRequest =
    | Listen(backlog: uint32)                                  // tcpListener.Start
    | AcceptNext                                               // BeginAcceptTcpClient
    | BeginWrite(target: Handle, frame: seq<byte>, announcesId: bool)  // announcesId: completion runs IdSentCallback
    | BlockingWrite(target: Handle, frame: seq<byte>)          // NetworkStream.Write
    | BeginRead(target: Handle, count: uint32, handshake: bool)  // handshake: completion runs ConfirmCallback
    | Close(target: Handle)
    | StopListening

  /** The user callbacks, recorded instead of called. */
  datatype ServerEvent =
    | Started
    | Stopped
    | ClientConnected(id: uint32)
    | ClientDisconnected(id: uint32)
    | DataReceived(count: int, source: uint32)

  // ---------------------------------------------------------------------
  // The frames the server writes

  /** The id announcement of BeginAcceptTcpClientCallback: the code as a byte, then the id. */
  function IdFrame(id: uint32): seq<byte> {
    EncodeFrame(SYSTEM, SERVER_ID, Encode(ByteVal(SERVER_CLIENT_ID_SEND)) + Encode(UIntVal(id)))
  }

  /** The announcement ClientIDReceivedConfirmCallback resends: the code as an int. */
  function IdResendFrame(id: uint32): seq<byte> {
    EncodeFrame(SYSTEM, SERVER_ID, Encode(IntVal(SERVER_CLIENT_ID_SEND)) + Encode(UIntVal(id)))
  }

  /** The notice Stop(false) writes to every client: the code as an int. */
  function StoppedFrame(): seq<byte> {
    EncodeFrame(SYSTEM, SERVER_ID, Encode(IntVal(SERVER_HAS_STOPPED)))
  }

  /** Writes the code and the id into a SYSTEM packet from SERVER_ID and packs
      it; `codeAsInt` selects the resend path's int-sized code. */
  method PackIdFrame(id: uint32, codeAsInt: bool) returns (data: seq<byte>)
    ensures data == if codeAsInt then IdResendFrame(id) else IdFrame(id)
  {
    var packet := new WritablePacket(SYSTEM, SERVER_ID);
    var code := if codeAsInt then IntVal(SERVER_CLIENT_ID_SEND) else ByteVal(SERVER_CLIENT_ID_SEND);
    packet.Write(code);
    packet.Write(UIntVal(id));
    assert packet.buffer == Encode(code) + Encode(UIntVal(id));
    data := PackOwnPacket(packet);
    packet.Dispose();
  }

  /** Stop's notice, packed. */
  method PackStoppedFrame() returns (data: seq<byte>)
    ensures data == StoppedFrame()
  {
    var packet := new WritablePacket(SYSTEM, SERVER_ID);
    packet.Write(IntVal(SERVER_HAS_STOPPED));
    data := PackOwnPacket(packet);
    packet.Dispose();
  }

  // ---------------------------------------------------------------------
  // The id pool

  /** Run's loop `Enqueue(i)` for i = SERVER_ID + 1 .. n. */
  function Filled(q: seq<uint32>, n: nat): seq<uint32>
    requires n <= UINT32_MAX
  {
    if n == 0 then q else Enqueued(Filled(q, n - 1), n)
  }

  /** 1, 2, ..., n. */
  function IdRange(n: nat): (r: seq<uint32>)
    requires n <= UINT32_MAX
    ensures |r| == n && forall i :: 0 <= i < n ==> r[i] == i + 1
  {
    seq(n, i requires 0 <= i < n => i + 1)
  }

  /** On an empty pool, Run hands out 1..MaxConnection in ascending order. */
  lemma {:induction false} FilledFromEmpty(n: nat)
    requires n <= UINT32_MAX
    ensures Filled([], n) == IdRange(n)
    ensures StrictlyAscending(Filled([], n))
  {
    if n > 0 {
      FilledFromEmpty(n - 1);
      assert n !in IdRange(n - 1);
      assert IdRange(n - 1) + [n] == IdRange(n);
    }
  }

  /** Filling keeps the pool duplicate-free and adds exactly the missing ids of 1..n. */
  lemma {:induction false} FilledContents(q: seq<uint32>, n: nat)
    requires n <= UINT32_MAX && NoDuplicates(q)
    ensures NoDuplicates(Filled(q, n))
    ensures forall x :: x in Filled(q, n) <==> x in q || 1 <= x <= n
    ensures |Filled(q, n)| >= |q| && Filled(q, n)[..|q|] == q
  {
    if n > 0 {
      FilledContents(q, n - 1);
      EnqueuedKeepsNoDuplicates(Filled(q, n - 1), n);
    }
  }

  /** DisconnectClientInternal's `Enqueue(id); OrderByAscending()`. */
  function Released(q: seq<uint32>, id: uint32): seq<uint32> {
    SortAscending(Enqueued(q, id))
  }

  /** A release leaves the pool strictly ascending and duplicate-free, with
      the id added, so the smallest free id is at the front. */
  lemma ReleasedPool(q: seq<uint32>, id: uint32)
    requires NoDuplicates(q)
    ensures var p := Released(q, id);
      && NoDuplicates(p) && StrictlyAscending(p)
      && (forall x :: x in p <==> x in q || x == id)
      && p[0] in p && (forall x :: x in p ==> p[0] <= x)
  {
    var e := Enqueued(q, id);
    EnqueuedKeepsNoDuplicates(q, id);
    SortKeepsNoDuplicates(e);
    var p := SortAscending(e);
    forall x
      ensures x in p <==> x in q || x == id
    {
      assert x in p <==> x in multiset(p);
      assert x in e <==> x in multiset(e);
    }
    assert id in p;
  }

  /** Ids released out of order come back in ascending order: with 2 free,
      the disconnections of 3 and then 1 leave 1, 2, 3, so 1 is handed out next. */
  lemma ReleaseOrderExample()
    ensures Released(Released([2], 3), 1) == [1, 2, 3]
  {
    SortedExample2();
    SortedExample3();
  }

  lemma SortedExample2()
    ensures Released([2], 3) == [2, 3]
  {
    assert Enqueued([2], 3) == [2, 3];
    assert [2, 3][1..] == [3];
    assert [3][1..] == [];
  }

  lemma SortedExample3()
    ensures Released([2, 3], 1) == [1, 2, 3]
  {
    assert Enqueued([2, 3], 1) == [2, 3, 1];
    assert [2, 3, 1][1..] == [3, 1];
    SortedExample31();
    InsertedExample();
  }

  lemma SortedExample31()
    ensures SortAscending([3, 1]) == [1, 3]
  {
    assert [3, 1][1..] == [1];
    assert [1][1..] == [];
    assert SortAscending([1]) == [1];
  }

  lemma InsertedExample()
    ensures InsertAscending(2, [1, 3]) == [1, 2, 3]
  {
    assert [1, 3][1..] == [3];
  }

  /** Run does not empty the pool: run again after a stop with 3, 4 and 5
      still free and MaxConnection 5, it appends 1 and 2 behind them, so the
      pool is no longer ascending and 3 is handed out before 1. */
  lemma RerunPoolExample()
    ensures Filled([3, 4, 5], 5) == [3, 4, 5, 1, 2]
    ensures !Ascending(Filled([3, 4, 5], 5))
  {
    assert Filled([3, 4, 5], 0) == [3, 4, 5];
    assert Filled([3, 4, 5], 1) == [3, 4, 5, 1];
    assert Filled([3, 4, 5], 2) == [3, 4, 5, 1, 2];
    assert Filled([3, 4, 5], 3) == [3, 4, 5, 1, 2];
    assert Filled([3, 4, 5], 4) == [3, 4, 5, 1, 2];
    assert Filled([3, 4, 5], 5)[0] > Filled([3, 4, 5], 5)[3];
  }

  // ---------------------------------------------------------------------
  // Decisions on received frames

  /** How ClientIDReceivedConfirmCallback answers a handshake reply. */
  datatype ReplyVerdict = Confirmed | Resend | Refused(error: Error)

  /** The handshake reply of the connection issued `id`, read from the first
      `count` bytes of its buffer. */
  function JudgeReply(id: uint32, count: int, buffer: seq<byte>, readBufferSize: uint32): (v: ReplyVerdict)
    ensures v == Confirmed <==>
      && HEADER_SIZE < count <= |buffer| && count - HEADER_SIZE <= readBufferSize
      && buffer[0] == SYSTEM && FromLittleEndian(buffer[2..6]) == id
      && buffer[HEADER_SIZE] == CLIENT_RECEIVED_ID_WELL
    ensures v == Resend <==>
      && HEADER_SIZE < count <= |buffer| && count - HEADER_SIZE <= readBufferSize
      && buffer[0] == SYSTEM && FromLittleEndian(buffer[2..6]) == id
      && buffer[HEADER_SIZE] != CLIENT_RECEIVED_ID_WELL
    ensures HEADER_SIZE <= count <= |buffer| && (buffer[0] != SYSTEM || FromLittleEndian(buffer[2..6]) != id)
      ==> v == Refused(Unspecified)
  {
    var unpacked := Unpack(count, buffer);
    if unpacked.Err? then Refused(unpacked.error)
    else
      var fr := unpacked.value;
      if fr.packetType != SYSTEM || fr.sourceId != id then Refused(Unspecified)
      else
        var code := LeadingByte(fr, readBufferSize);
        if code.Err? then Refused(code.error)
        else if code.value == CLIENT_RECEIVED_ID_WELL then Confirmed
        else Resend
  }

  /** How BeginReadCallback answers a frame. */
  datatype LoopVerdict =
    | EndLoop                       // the source is not a registered client
    | DisconnectSource(id: uint32)  // SYSTEM CLIENT_DISCONNECT_REQUEST
    | Deliver(source: uint32)       // CUSTOM: handed to OnDataReceivedFromClient
    | Rearm                         // anything else
    | Fail(error: Error)

  function JudgeLoopFrame(count: int, buffer: seq<byte>, readBufferSize: uint32, registered: set<uint32>): (v: LoopVerdict)
    ensures v == EndLoop <==>
      HEADER_SIZE <= count <= |buffer| && FromLittleEndian(buffer[2..6]) !in registered
    ensures v.DisconnectSource? <==>
      && HEADER_SIZE < count <= |buffer| && count - HEADER_SIZE <= readBufferSize
      && FromLittleEndian(buffer[2..6]) in registered
      && buffer[0] == SYSTEM && buffer[HEADER_SIZE] == CLIENT_DISCONNECT_REQUEST
    ensures v.DisconnectSource? ==> v.id == FromLittleEndian(buffer[2..6])
    ensures v.Deliver? <==>
      HEADER_SIZE <= count <= |buffer| && FromLittleEndian(buffer[2..6]) in registered && buffer[0] == CUSTOM
    ensures v.Deliver? ==> v.source == FromLittleEndian(buffer[2..6])
    ensures v.Fail? <==>
      (|| Unpack(count, buffer).Err?
       || (&& HEADER_SIZE <= count <= |buffer| && FromLittleEndian(buffer[2..6]) in registered
           && buffer[0] == SYSTEM && (count == HEADER_SIZE || count - HEADER_SIZE > readBufferSize)))
    ensures Unpack(count, buffer).Err? ==> v == Fail(Unpack(count, buffer).error)
  {
    var unpacked := Unpack(count, buffer);
    if unpacked.Err? then Fail(unpacked.error)
    else
      var fr := unpacked.value;
      if fr.sourceId !in registered then EndLoop
      else if fr.packetType == SYSTEM then
        var code := LeadingByte(fr, readBufferSize);
        if code.Err? then Fail(code.error)
        else if code.value == CLIENT_DISCONNECT_REQUEST then DisconnectSource(fr.sourceId)
        else Rearm
      else if fr.packetType == CUSTOM then Deliver(fr.sourceId)
      else Rearm
  }


  // ---------------------------------------------------------------------
  // Connections

  /** The fields of a NetTcpClient (the TcpClient is folded into the stream). */
  datatype Link = Link(stream: StreamState, clientId: uint32, readBufferSize: uint32,
                       readBuffer: seq<byte>, isReading: bool)

  /** NetTcpClient.Init: a new zeroed buffer of the given size, not reading. */
  function Reset(stream: StreamState, clientId: uint32, readBufferSize: uint32): Link {
    Link(stream, clientId, readBufferSize, Zeros(readBufferSize), false)
  }

  /** EndRead: the bytes a read completed with are written over the front of
      the buffer, the rest is as it was. */
  function Received(l: Link, received: seq<byte>): (r: Link)
    requires |received| <= |l.readBuffer|
    ensures r == l.(readBuffer := r.readBuffer) && |r.readBuffer| == |l.readBuffer|
    ensures r.readBuffer[..|received|] == received
    ensures r.readBuffer[|received|..] == l.readBuffer[|received|..]
  {
    l.(readBuffer := received + l.readBuffer[|received|..])
  }

  /** The private Read(id, offset, count): nothing when a read is already
      pending; otherwise IsReading is set and the buffer cleared. */
  function ReadArmed(l: Link): Link {
    if l.isReading then l else l.(isReading := true, readBuffer := Zeros(|l.readBuffer|))
  }

  /** The request and the outcome of that Read on connection h: BeginRead
      needs an open stream. */
  function ReadRequest(h: Handle, l: Link, count: uint32): (seq<IoRequest>, Outcome) {
    if l.isReading then ([], Completed)
    else if l.stream == Open then ([BeginRead(h, count, false)], Completed)
    else ([], Threw(StreamFault(l.stream)))
  }

  /** A connection after Stop has visited it: stream closed, not reading. */
  function Shutdown(l: Link): Link {
    l.(stream := Closing(l.stream), isReading := false)
  }

  /** What Stop asks of connection h: the notice unless forced, then the close. */
  function ShutRequests(h: Handle, forced: bool, l: Link): seq<IoRequest> {
    (if forced then [] else [BlockingWrite(h, StoppedFrame())])
    + (if l.stream == NoStream then [] else [Close(h)])
  }

  predicate InRange(hs: seq<Handle>, conns: seq<Link>) {
    forall j :: 0 <= j < |hs| ==> hs[j] < |conns|
  }

  /** Stop's loop over the connections hs: each gets the notice (unless
      forced; writing needs an open stream, and a failure ends the loop)
      and is closed. Yields the connections, `log` followed by the requests,
      and the outcome. */
  function StopPass(conns: seq<Link>, hs: seq<Handle>, forced: bool, log: seq<IoRequest>)
    : (r: (seq<Link>, seq<IoRequest>, Outcome))
    requires InRange(hs, conns)
    ensures |r.0| == |conns|
    decreases |hs|
  {
    if hs == [] then (conns, log, Completed)
    else
      var l := conns[hs[0]];
      if !forced && l.stream != Open then (conns, log, Threw(StreamFault(l.stream)))
      else StopPass(conns[hs[0] := Shutdown(l)], hs[1..], forced, log + ShutRequests(hs[0], forced, l))
  }

  /** Broadcast's loop over the connections hs: a write of `frame` each, up
      to the first whose stream is not open. Yields `log` followed by the
      requests, and the outcome. */
  function SendPass(conns: seq<Link>, hs: seq<Handle>, frame: seq<byte>, log: seq<IoRequest>): (seq<IoRequest>, Outcome)
    requires InRange(hs, conns)
    decreases |hs|
  {
    if hs == [] then (log, Completed)
    else if conns[hs[0]].stream != Open then (log, Threw(StreamFault(conns[hs[0]].stream)))
    else SendPass(conns, hs[1..], frame, log + [BeginWrite(hs[0], frame, false)])
  }

  predicate Distinct(hs: seq<Handle>) {
    forall i, j :: 0 <= i < j < |hs| ==> hs[i] != hs[j]
  }

  /** Stop's loop on distinct connections ends normally exactly when it is
      forced or every stream is open; it shuts every visited connection and
      touches no other. */
  lemma {:induction false} StopPassEffect(conns: seq<Link>, hs: seq<Handle>, forced: bool, log: seq<IoRequest>)
    requires InRange(hs, conns) && Distinct(hs)
    ensures var r := StopPass(conns, hs, forced, log);
      && (r.2 == Completed <==> forced || forall j :: 0 <= j < |hs| ==> conns[hs[j]].stream == Open)
      && (forall h :: 0 <= h < |conns| && h !in hs ==> r.0[h] == conns[h])
      && (r.2 == Completed ==> forall j :: 0 <= j < |hs| ==> r.0[hs[j]] == Shutdown(conns[hs[j]]))
    decreases |hs|
  {
    if hs != [] {
      var l := conns[hs[0]];
      if forced || l.stream == Open {
        var c := conns[hs[0] := Shutdown(l)];
        StopPassEffect(c, hs[1..], forced, log + ShutRequests(hs[0], forced, l));
        assert forall j :: 1 <= j < |hs| ==> c[hs[j]] == conns[hs[j]];
      }
    }
  }

  /** Stop's loop keeps what was requested before it. */
  lemma {:induction false} StopPassKeepsLog(conns: seq<Link>, hs: seq<Handle>, forced: bool, log: seq<IoRequest>)
    requires InRange(hs, conns)
    ensures var r := StopPass(conns, hs, forced, log);
      |log| <= |r.1| && r.1[..|log|] == log
    decreases |hs|
  {
    if hs != [] {
      var l := conns[hs[0]];
      if forced || l.stream == Open {
        var log' := log + ShutRequests(hs[0], forced, l);
        StopPassKeepsLog(conns[hs[0] := Shutdown(l)], hs[1..], forced, log');
        var r := StopPass(conns[hs[0] := Shutdown(l)], hs[1..], forced, log');
        assert r.1[..|log|] == r.1[..|log'|][..|log|];
      }
    }
  }

  /** When Stop's loop ends normally, every visited client got the notice
      (unless forced) and every stream it had was closed. */
  lemma {:induction false} StopPassRequests(conns: seq<Link>, hs: seq<Handle>, forced: bool, log: seq<IoRequest>)
    requires InRange(hs, conns) && Distinct(hs)
    ensures var r := StopPass(conns, hs, forced, log);
      r.2 == Completed ==> forall j :: 0 <= j < |hs| ==>
        && (!forced ==> BlockingWrite(hs[j], StoppedFrame()) in r.1)
        && (conns[hs[j]].stream != NoStream ==> Close(hs[j]) in r.1)
    decreases |hs|
  {
    if hs != [] {
      var l := conns[hs[0]];
      if forced || l.stream == Open {
        var c := conns[hs[0] := Shutdown(l)];
        var sr := ShutRequests(hs[0], forced, l);
        StopPassRequests(c, hs[1..], forced, log + sr);
        StopPassKeepsLog(c, hs[1..], forced, log + sr);
        var r := StopPass(c, hs[1..], forced, log + sr);
        assert forall j :: 1 <= j < |hs| ==> c[hs[j]] == conns[hs[j]];
        forall i | 0 <= i < |sr|
          ensures sr[i] in r.1
        {
          assert r.1[|log| + i] == (log + sr)[|log| + i];
        }
        if !forced {
          assert sr[0] == BlockingWrite(hs[0], StoppedFrame());
        }
        if l.stream != NoStream {
          assert sr[|sr| - 1] == Close(hs[0]);
        }
      }
    }
  }

  /** The connections of distinct registered ids are distinct. */
  lemma RegisteredHandles(conns: seq<Link>, clients: map<uint32, Handle>, order: seq<uint32>)
    requires Registry(conns, clients, order)
    ensures InRange(HandlesOf(clients, order), conns) && Distinct(HandlesOf(clients, order))
  {
    var hs := HandlesOf(clients, order);
    forall i, j | 0 <= i < j < |hs|
      ensures hs[i] != hs[j]
    {
      assert conns[hs[i]].clientId == order[i];
      assert conns[hs[j]].clientId == order[j];
    }
  }

  /** A forced stop always gets through the loop and shuts the connection
      of every registered client. */
  lemma ForcedStopShutsAll(conns: seq<Link>, clients: map<uint32, Handle>, order: seq<uint32>, log: seq<IoRequest>)
    requires Registry(conns, clients, order)
    ensures var r := StopPass(conns, HandlesOf(clients, order), true, log);
      && r.2 == Completed
      && forall id :: id in clients ==> r.0[clients[id]] == Shutdown(conns[clients[id]])
  {
    var hs := HandlesOf(clients, order);
    RegisteredHandles(conns, clients, order);
    StopPassEffect(conns, hs, true, log);
    forall id | id in clients
      ensures StopPass(conns, hs, true, log).0[clients[id]] == Shutdown(conns[clients[id]])
    {
      assert id in order;
      var j :| 0 <= j < |order| && order[j] == id;
      assert hs[j] == clients[id];
    }
  }

  /** The writes of `frame` to the connections hs, one each, in order. */
  function Writes(hs: seq<Handle>, frame: seq<byte>): (w: seq<IoRequest>)
    ensures |w| == |hs| && forall j :: 0 <= j < |hs| ==> w[j] == BeginWrite(hs[j], frame, false)
  {
    seq(|hs|, j requires 0 <= j < |hs| => BeginWrite(hs[j], frame, false))
  }

  /** How many of the connections hs, from the front, have an open stream. */
  function OpenPrefix(conns: seq<Link>, hs: seq<Handle>): (k: nat)
    requires InRange(hs, conns)
    ensures k <= |hs| && forall j :: 0 <= j < k ==> conns[hs[j]].stream == Open
    ensures k < |hs| ==> conns[hs[k]].stream != Open
    decreases |hs|
  {
    if hs == [] || conns[hs[0]].stream != Open then 0
    else 1 + OpenPrefix(conns, hs[1..])
  }

  /** Broadcast's loop writes to the open prefix of hs, and fails with the
      fault of the first connection past it, if any. */
  lemma {:induction false} SendPassEffect(conns: seq<Link>, hs: seq<Handle>, frame: seq<byte>, log: seq<IoRequest>)
    requires InRange(hs, conns)
    ensures var r := SendPass(conns, hs, frame, log);
      var k := OpenPrefix(conns, hs);
      && r.0 == log + Writes(hs[..k], frame)
      && (k == |hs| ==> r.1 == Completed)
      && (k < |hs| ==> r.1 == Threw(StreamFault(conns[hs[k]].stream)))
    decreases |hs|
  {
    if hs != [] && conns[hs[0]].stream == Open {
      var w := [BeginWrite(hs[0], frame, false)];
      SendPassEffect(conns, hs[1..], frame, log + w);
      var k := OpenPrefix(conns, hs);
      assert w + Writes(hs[1..][..k - 1], frame) == Writes(hs[..k], frame);
    }
  }

  /** Stop's loop keeps the registry: it changes no id and no buffer. */
  lemma {:induction false} StopPassKeepsRegistry(conns: seq<Link>, hs: seq<Handle>, forced: bool, log: seq<IoRequest>,
                                                 clients: map<uint32, Handle>, order: seq<uint32>)
    requires InRange(hs, conns) && Registry(conns, clients, order)
    ensures Registry(StopPass(conns, hs, forced, log).0, clients, order)
    decreases |hs|
  {
    if hs != [] {
      var l := conns[hs[0]];
      if forced || l.stream == Open {
        RegistryUpdate(conns, clients, order, hs[0], Shutdown(l));
        StopPassKeepsRegistry(conns[hs[0] := Shutdown(l)], hs[1..], forced, log + ShutRequests(hs[0], forced, l), clients, order);
      }
    }
  }

  /** The connections the dictionary holds for ids, in order. */
  function HandlesOf(clients: map<uint32, Handle>, ids: seq<uint32>): (hs: seq<Handle>)
    requires forall id :: id in ids ==> id in clients
    ensures |hs| == |ids| && forall j :: 0 <= j < |ids| ==> hs[j] == clients[ids[j]]
  {
    seq(|ids|, j requires 0 <= j < |ids| => clients[ids[j]])
  }

  predicate FreeIds(q: seq<uint32>) {
    forall id :: id in q ==> id != SERVER_ID
  }

  /** A connection the server can hold: not SERVER_ID's, with a buffer of its
      recorded size. */
  predicate Sound(l: Link) {
    l.clientId != SERVER_ID && |l.readBuffer| == l.readBufferSize
  }

  /** Every registered connection carries its key, `order` lists the keys
      once each, and every connection is sound. */
  ghost predicate Registry(conns: seq<Link>, clients: map<uint32, Handle>, order: seq<uint32>) {
    && (forall id :: id in clients ==> clients[id] < |conns| && conns[clients[id]].clientId == id)
    && NoDuplicates(order) && (forall id :: id in order <==> id in clients)
    && (forall h :: 0 <= h < |conns| ==> Sound(conns[h]))
  }

  /** Replacing a connection by a sound one of the same id keeps the registry. */
  lemma RegistryUpdate(conns: seq<Link>, clients: map<uint32, Handle>, order: seq<uint32>, h: Handle, l: Link)
    requires Registry(conns, clients, order) && h < |conns| && Sound(l) && l.clientId == conns[h].clientId
    ensures Registry(conns[h := l], clients, order)
  {
  }

  // ---------------------------------------------------------------------
  // The server

  class Server {
    const common: Common
    /** clientIDs: the free ids, handed out from the front. */
    const pool: UniqueQueue
    var maxConnection: uint32
    /** Every NetTcpClient the server has created, by handle. */
    var conns: seq<Link>
    /** connectedClients: entries are added by the handshake and never removed. */
    var clients: map<uint32, Handle>
    /** The dictionary's keys in insertion order, the order foreach visits them. */
    var order: seq<uint32>
    var io: seq<IoRequest>
    var events: seq<ServerEvent>

    /** No free id is SERVER_ID, and the connections are a registry. */
    ghost predicate Valid()
      reads this`conns, this`clients, this`order, common`clientId, pool
    {
      && common.clientId == SERVER_ID
      && pool.Valid() && FreeIds(pool.items)
      && Registry(conns, clients, order)
    }

    /** Server(), Server(int), Server(uint), Server(int, uint): the Common
        constructor, then Init. */
    constructor (packer: PackerConfig, readBufferSize: Option<int32>, port: Option<uint32>)
      modifies packer
      ensures Valid() && fresh(common) && fresh(pool)
      ensures common.packer == packer && packer.readBufferSize == common.readBufferSize
      ensures common.readBufferSize == if readBufferSize.Some? then UInt32OfInt(readBufferSize.value) else DEFAULT_READ_BUFFER_SIZE
      ensures common.port == if port.Some? then port.value else DEFAULT_PORT
      ensures !common.isReady && !common.isReadable && !common.isWritable
      ensures maxConnection == DEFAULT_MAX_CONNECTION
      ensures pool.items == [] && conns == [] && clients == map[] && order == [] && io == [] && events == []
    {
      var c := NewCommon(packer, readBufferSize, port);
      common := c;
      maxConnection := DEFAULT_MAX_CONNECTION;
      pool := new UniqueQueue();
      conns := [];
      clients := map[];
      order := [];
      io := [];
      events := [];
      new;
      c.clientId := SERVER_ID;
      c.isReady, c.isReadable, c.isWritable := false, false, false;
    }

    /** The MaxConnection setter: ignored once the server is ready. */
    method SetMaxConnection(value: uint32)
      modifies this`maxConnection
      ensures maxConnection == if common.isReady then old(maxConnection) else value
    {
      if common.isReady {
        return;
      }
      maxConnection := value;
    }

    /** IsFull: no free id left. */
    function IsFull(): bool
      reads pool
    {
      pool.Count() <= 0
    }

    function IsValidClient(id: uint32): bool
      reads this`clients
    {
      id in clients
    }

    /** Run: fills the pool with 1..MaxConnection, listens and starts
        accepting. `hasLocalAddress` is whether DNS yields an IPv4 address. */
    method Run(hasLocalAddress: bool) returns (r: Result<bool>)
      requires Valid()
      requires maxConnection < UINT32_MAX
      modifies this`io, this`events, common`isReady, pool
      ensures Valid()
      ensures old(common.isReady) || !hasLocalAddress ==>
        r == Ok(false) && common.isReady == old(common.isReady)
        && pool.items == old(pool.items) && io == old(io) && events == old(events)
      ensures !old(common.isReady) && hasLocalAddress && common.port > MAX_PORT ==>
        r == Err(ArgumentOutOfRange) && !common.isReady
        && pool.items == old(pool.items) && io == old(io) && events == old(events)
      ensures !old(common.isReady) && hasLocalAddress && common.port <= MAX_PORT ==>
        && pool.items == Filled(old(pool.items), maxConnection)
        && (maxConnection > MAX_BACKLOG ==>
              r == Err(ArgumentOutOfRange) && !common.isReady && io == old(io) && events == old(events))
        && (maxConnection <= MAX_BACKLOG ==>
              && r == Ok(true) && common.isReady
              && io == old(io) + [Listen(maxConnection)] + (if pool.items == [] then [] else [AcceptNext])
              && events == old(events) + [Started])
    {
      if common.isReady {
        return Ok(false);
      }
      if !hasLocalAddress {
        return Ok(false);
      }
      if common.port > MAX_PORT {
        return Err(ArgumentOutOfRange);
      }
      FillPool(maxConnection);
      if maxConnection > MAX_BACKLOG {
        return Err(ArgumentOutOfRange);
      }
      io := io + [Listen(maxConnection)];
      events := events + [Started];
      common.isReady := true;
      if !IsFull() {
        io := io + [AcceptNext];
      }
      r := Ok(true);
    }

    /** Run's loop: enqueues SERVER_ID + 1 .. n. */
    method FillPool(n: uint32)
      requires pool.Valid() && FreeIds(pool.items) && n < UINT32_MAX
      modifies pool
      ensures pool.Valid() && FreeIds(pool.items)
      ensures pool.items == Filled(old(pool.items), n)
    {
      var i: nat := SERVER_ID + 1;
      while i <= n
        invariant 1 <= i <= n + 1
        invariant pool.Valid() && pool.items == Filled(old(pool.items), i - 1)
      {
        FilledContents(old(pool.items), i - 1);
        pool.Enqueue(i);
        i := i + 1;
      }
      FilledContents(old(pool.items), n);
    }

    /** BeginAcceptTcpClientCallback: takes the front id, re-initialises the
        registered connection of that id (or a new one) on the accepted
        stream, announces the id, and accepts again while ids are left.
        Returns the connection the announcement's completion receives. */
    method AcceptCallback() returns (conn: Option<Handle>, r: Outcome)
      requires Valid()
      modifies this`conns, this`io, pool
      ensures Valid()
      ensures !common.isReady ==>
        conn == None && r == Completed && conns == old(conns) && pool.items == old(pool.items) && io == old(io)
      ensures common.isReady && old(pool.items) == [] ==>
        && conn == None && r == Threw(InvalidOperation)
        && conns == old(conns) && pool.items == old(pool.items) && io == old(io)
      ensures common.isReady && old(pool.items) != [] ==>
        var id := old(pool.items)[0];
        var h := if id in clients then clients[id] else |old(conns)|;
        && conn == Some(h) && r == Completed
        && conns == (if id in clients then old(conns)[h := Reset(Open, id, common.readBufferSize)]
                     else old(conns) + [Reset(Open, id, common.readBufferSize)])
        && pool.items == old(pool.items)[1..]
        && io == old(io) + [BeginWrite(h, IdFrame(id), true)] + (if pool.items == [] then [] else [AcceptNext])
    {
      if !common.isReady {
        return None, Completed;
      }
      var taken := TakeId();
      if taken.Err? {
        return None, Threw(taken.error);
      }
      var id := taken.value;
      var h := Admit(id);
      Announce(h, id);
      conn, r := Some(h), Completed;
    }

    /** clientIDs.Dequeue(), which throws on an empty queue. */
    method TakeId() returns (r: Result<uint32>)
      requires pool.Valid() && FreeIds(pool.items)
      modifies pool
      ensures pool.Valid() && FreeIds(pool.items)
      ensures old(pool.items) == [] ==> r == Err(InvalidOperation) && pool.items == old(pool.items)
      ensures old(pool.items) != [] ==>
        r == Ok(old(pool.items)[0]) && pool.items == old(pool.items)[1..] && r.value != SERVER_ID
    {
      r := pool.Dequeue();
      if r.Ok? {
        assert r.value in old(pool.items);
        forall x | x in pool.items
          ensures x != SERVER_ID
        {
          assert x in old(pool.items);
        }
      }
    }

    /** The registered connection of `id`, or a new one, initialised on the
        accepted stream with the current read buffer size. */
    method Admit(id: uint32) returns (h: Handle)
      requires Valid() && id != SERVER_ID
      modifies this`conns
      ensures Valid()
      ensures id in clients ==> h == clients[id] && conns == old(conns)[h := Reset(Open, id, common.readBufferSize)]
      ensures id !in clients ==> h == |old(conns)| && conns == old(conns) + [Reset(Open, id, common.readBufferSize)]
    {
      if id in clients {
        h := clients[id];
        conns := conns[h := Reset(Open, id, common.readBufferSize)];
      } else {
        h := |conns|;
        conns := conns + [Reset(Open, id, common.readBufferSize)];
      }
    }

    /** Writes the id announcement on connection h and accepts again while
        ids are left. */
    method Announce(h: Handle, id: uint32)
      modifies this`io
      ensures io == old(io) + [BeginWrite(h, IdFrame(id), true)] + (if pool.items == [] then [] else [AcceptNext])
    {
      var data := PackIdFrame(id, false);
      io := io + [BeginWrite(h, data, true)];
      if !IsFull() {
        io := io + [AcceptNext];
      }
    }

    /** ClientIDSendCallback: once the announcement is written, wait for the reply. */
    method IdSentCallback(h: Handle) returns (r: Outcome)
      requires h < |conns|
      modifies this`io
      ensures !common.isReady ==> r == Completed && io == old(io)
      ensures common.isReady && conns[h].stream != Open ==> r == Threw(StreamFault(conns[h].stream)) && io == old(io)
      ensures common.isReady && conns[h].stream == Open ==>
        r == Completed && io == old(io) + [BeginRead(h, common.readBufferSize, true)]
    {
      if !common.isReady {
        return Completed;
      }
      if conns[h].stream != Open {
        return Threw(StreamFault(conns[h].stream));
      }
      io := io + [BeginRead(h, common.readBufferSize, true)];
      r := Completed;
    }

    /** ClientIDReceivedConfirmCallback on connection h, `received` being the
        bytes the read completed with. A confirmed reply registers the
        connection (unless its id already is a key), opens the server for
        reading and writing and starts the read loop of the registered
        connection of that id; any other code has the id announced again. */
    method ConfirmCallback(h: Handle, received: seq<byte>) returns (r: Outcome)
      requires Valid() && h < |conns| && |received| <= |conns[h].readBuffer|
      modifies this`conns, this`clients, this`order, this`io, this`events, common`isReadable, common`isWritable
      ensures Valid()
      ensures !common.isReady || old(conns[h].stream) != Open ==>
        && r == (if common.isReady then Threw(StreamFault(old(conns[h].stream))) else Completed)
        && conns == old(conns) && clients == old(clients) && order == old(order)
        && io == old(io) && events == old(events)
        && common.isReadable == old(common.isReadable) && common.isWritable == old(common.isWritable)
      ensures common.isReady && old(conns[h].stream) == Open ==>
        var l := Received(old(conns[h]), received);
        var filled := old(conns)[h := l];
        var v := JudgeReply(l.clientId, |received|, l.readBuffer, common.packer.readBufferSize);
        && (v.Refused? || v == Resend ==>
              && r == (if v.Refused? then Threw(v.error) else Completed)
              && conns == filled && clients == old(clients) && order == old(order) && events == old(events)
              && io == old(io) + (if v.Refused? then [] else [BeginWrite(h, IdResendFrame(l.clientId), true)])
              && common.isReadable == old(common.isReadable) && common.isWritable == old(common.isWritable))
        && (v == Confirmed ==>
              var id := l.clientId;
              var g := if id in old(clients) then old(clients)[id] else h;
              && common.isReadable && common.isWritable
              && clients == old(clients)[id := g]
              && order == (if id in old(clients) then old(order) else old(order) + [id])
              && conns == filled[g := ReadArmed(filled[g])]
              && io == old(io) + ReadRequest(g, filled[g], common.readBufferSize).0
              && r == ReadRequest(g, filled[g], common.readBufferSize).1
              && events == old(events) + (if r == Completed then [ClientConnected(id)] else []))
    {
      if !common.isReady {
        return Completed;
      }
      if conns[h].stream != Open {
        return Threw(StreamFault(conns[h].stream));
      }
      Fill(h, received);
      var id := conns[h].clientId;
      var v := JudgeReply(id, |received|, conns[h].readBuffer, common.packer.readBufferSize);
      if v.Refused? {
        return Threw(v.error);
      }
      if v == Resend {
        var data := PackIdFrame(id, true);
        io := io + [BeginWrite(h, data, true)];
        return Completed;
      }
      r := Confirm(h);
    }

    /** The confirmed branch of ClientIDReceivedConfirmCallback. */
    method Confirm(h: Handle) returns (r: Outcome)
      requires Valid() && h < |conns|
      modifies this`conns, this`clients, this`order, this`io, this`events, common`isReadable, common`isWritable
      ensures Valid()
      ensures var id := old(conns[h].clientId);
        var g := if id in old(clients) then old(clients)[id] else h;
        && common.isReadable && common.isWritable
        && clients == old(clients)[id := g]
        && order == (if id in old(clients) then old(order) else old(order) + [id])
        && conns == old(conns)[g := ReadArmed(old(conns[g]))]
        && io == old(io) + ReadRequest(g, old(conns[g]), common.readBufferSize).0
        && r == ReadRequest(g, old(conns[g]), common.readBufferSize).1
        && events == old(events) + (if r == Completed then [ClientConnected(id)] else [])
    {
      common.isReadable := true;
      common.isWritable := true;
      var id := conns[h].clientId;
      if id !in clients {
        clients := clients[id := h];
        order := order + [id];
      }
      r := Read(id);
      if r == Completed {
        events := events + [ClientConnected(id)];
      }
    }

    /** Read(targetClientID): starts a client's read loop. */
    method Read(id: uint32) returns (r: Outcome)
      requires Valid()
      modifies this`conns, this`io
      ensures Valid()
      ensures !common.isReadable || id !in clients ==> r == Completed && conns == old(conns) && io == old(io)
      ensures common.isReadable && id in clients ==>
        var h := clients[id];
        && conns == old(conns)[h := ReadArmed(old(conns[h]))]
        && io == old(io) + ReadRequest(h, old(conns[h]), common.readBufferSize).0
        && r == ReadRequest(h, old(conns[h]), common.readBufferSize).1
    {
      if !common.isReadable || !IsValidClient(id) {
        return Completed;
      }
      r := ReadConnection(id);
    }

    /** The private Read(targetClientID, offset, count). */
    method ReadConnection(id: uint32) returns (r: Outcome)
      requires Valid() && id in clients
      modifies this`conns, this`io
      ensures Valid()
      ensures var h := clients[id];
        && conns == old(conns)[h := ReadArmed(old(conns[h]))]
        && io == old(io) + ReadRequest(h, old(conns[h]), common.readBufferSize).0
        && r == ReadRequest(h, old(conns[h]), common.readBufferSize).1
    {
      var h := clients[id];
      var l := conns[h];
      if l.isReading {
        return Completed;
      }
      conns := conns[h := l.(isReading := true, readBuffer := Zeros(l.readBufferSize))];
      if l.stream != Open {
        return Threw(StreamFault(l.stream));
      }
      io := io + [BeginRead(h, common.readBufferSize, false)];
      r := Completed;
    }

    /** StopRead(targetClientID): the next completed read ends the loop. */
    method StopRead(id: uint32)
      requires Valid()
      modifies this`conns
      ensures Valid()
      ensures id !in clients ==> conns == old(conns)
      ensures id in clients ==> conns == old(conns)[clients[id] := old(conns[clients[id]]).(isReading := false)]
    {
      if !IsValidClient(id) {
        return;
      }
      var h := clients[id];
      conns := conns[h := conns[h].(isReading := false)];
    }

    /** BeginReadCallback on connection h's read loop, `received` being the
        bytes the read completed with. A disconnect request disconnects the
        frame's source, a CUSTOM frame is delivered, and every frame from a
        registered source short of a disconnect re-arms the read. */
    method ReadCallback(h: Handle, received: seq<byte>) returns (r: Outcome)
      requires Valid() && h < |conns| && |received| <= |conns[h].readBuffer|
      modifies this`conns, this`io, this`events, pool
      ensures Valid()
      ensures !common.IsRunning() || !old(conns[h].isReading) || old(conns[h].stream) != Open ==>
        && r == (if common.IsRunning() && old(conns[h].isReading) then Threw(StreamFault(old(conns[h].stream))) else Completed)
        && conns == old(conns) && io == old(io) && events == old(events) && pool.items == old(pool.items)
      ensures common.IsRunning() && old(conns[h].isReading) && old(conns[h].stream) == Open ==>
        var l := Received(old(conns[h]), received);
        var filled := old(conns)[h := l];
        var v := JudgeLoopFrame(|received|, l.readBuffer, common.packer.readBufferSize, clients.Keys);
        && (v.Fail? || v == EndLoop ==>
              && r == (if v.Fail? then Threw(v.error) else Completed)
              && conns == filled && io == old(io) && events == old(events) && pool.items == old(pool.items))
        && (v.DisconnectSource? ==>
              var g := clients[v.id];
              && r == Completed
              && conns == filled[g := Reset(NoStream, v.id, common.readBufferSize)]
              && pool.items == Released(old(pool.items), v.id)
              && io == old(io) + (if filled[g].stream == NoStream then [] else [Close(g)])
              && events == old(events) + [ClientDisconnected(v.id)])
        && (v.Deliver? || v == Rearm ==>
              && r == Completed
              && conns == filled[h := l.(readBuffer := Zeros(|l.readBuffer|))]
              && io == old(io) + [BeginRead(h, common.readBufferSize, false)]
              && events == old(events) + (if v.Deliver? then [DataReceived(|received|, v.source)] else [])
              && pool.items == old(pool.items))
    {
      if !common.IsRunning() || !conns[h].isReading {
        return Completed;
      }
      if conns[h].stream != Open {
        return Threw(StreamFault(conns[h].stream));
      }
      Fill(h, received);
      var v := JudgeLoopFrame(|received|, conns[h].readBuffer, common.packer.readBufferSize, clients.Keys);
      r := Answer(h, |received|, v);
    }

    /** EndRead on connection h: the received bytes land in its buffer. */
    method Fill(h: Handle, received: seq<byte>)
      requires Valid() && h < |conns| && |received| <= |conns[h].readBuffer|
      modifies this`conns
      ensures Valid()
      ensures conns == old(conns)[h := Received(old(conns[h]), received)]
    {
      RegistryUpdate(conns, clients, order, h, Received(conns[h], received));
      conns := conns[h := Received(conns[h], received)];
    }

    /** What BeginReadCallback does with its verdict on a frame of `count`
        bytes read on connection h. */
    method Answer(h: Handle, count: int, v: LoopVerdict) returns (r: Outcome)
      requires Valid() && h < |conns| && (v.DisconnectSource? ==> v.id in clients)
      modifies this`conns, this`io, this`events, pool
      ensures Valid()
      ensures v.Fail? || v == EndLoop ==>
        && r == (if v.Fail? then Threw(v.error) else Completed)
        && conns == old(conns) && io == old(io) && events == old(events) && pool.items == old(pool.items)
      ensures v.DisconnectSource? ==>
        var g := clients[v.id];
        && r == Completed
        && conns == old(conns)[g := Reset(NoStream, v.id, common.readBufferSize)]
        && pool.items == Released(old(pool.items), v.id)
        && io == old(io) + (if old(conns[g].stream) == NoStream then [] else [Close(g)])
        && events == old(events) + [ClientDisconnected(v.id)]
      ensures v.Deliver? || v == Rearm ==>
        && r == Completed
        && conns == old(conns)[h := old(conns[h]).(readBuffer := Zeros(|old(conns[h]).readBuffer|))]
        && io == old(io) + [BeginRead(h, common.readBufferSize, false)]
        && events == old(events) + (if v.Deliver? then [DataReceived(count, v.source)] else [])
        && pool.items == old(pool.items)
    {
      match v {
        case Fail(e) =>
          return Threw(e);
        case EndLoop =>
          return Completed;
        case DisconnectSource(id) =>
          var _ := DisconnectClient(id);
          return Completed;
        case Deliver(source) =>
          events := events + [DataReceived(count, source)];
        case Rearm =>
      }
      var l := conns[h].(readBuffer := Zeros(conns[h].readBufferSize));
      RegistryUpdate(conns, clients, order, h, l);
      conns := conns[h := l];
      io := io + [BeginRead(h, common.readBufferSize, false)];
      r := Completed;
    }

    /** DisconnectClient: closes a registered client's stream, re-initialises
        its connection without a stream (the dictionary entry stays), returns
        its id to the pool in ascending order and reports the disconnection. */
    method DisconnectClient(id: uint32) returns (success: bool)
      requires Valid()
      modifies this`conns, this`io, this`events, pool
      ensures Valid()
      ensures success <==> id in clients
      ensures id !in clients ==>
        conns == old(conns) && io == old(io) && events == old(events) && pool.items == old(pool.items)
      ensures id in clients ==>
        var g := clients[id];
        && conns == old(conns)[g := Reset(NoStream, id, common.readBufferSize)]
        && pool.items == Released(old(pool.items), id) && StrictlyAscending(pool.items)
        && io == old(io) + (if old(conns[g].stream) == NoStream then [] else [Close(g)])
        && events == old(events) + [ClientDisconnected(id)]
    {
      if !IsValidClient(id) {
        return false;
      }
      Detach(id);
      ReleaseId(id);
      events := events + [ClientDisconnected(id)];
      success := true;
    }

    /** `NetworkStream?.Close(); TcpClient?.Close(); IsReading = false;
        Init(null, null, clientID, readBufferSize)` on the client's connection. */
    method Detach(id: uint32)
      requires Valid() && id in clients
      modifies this`conns, this`io
      ensures Valid()
      ensures var g := clients[id];
        && conns == old(conns)[g := Reset(NoStream, id, common.readBufferSize)]
        && io == old(io) + (if old(conns[g].stream) == NoStream then [] else [Close(g)])
    {
      var g := clients[id];
      if conns[g].stream != NoStream {
        io := io + [Close(g)];
      }
      RegistryUpdate(conns, clients, order, g, Reset(NoStream, id, common.readBufferSize));
      conns := conns[g := Reset(NoStream, id, common.readBufferSize)];
    }

    /** `clientIDs.Enqueue(id); clientIDs.OrderByAscending()`. */
    method ReleaseId(id: uint32)
      requires pool.Valid() && FreeIds(pool.items) && id != SERVER_ID
      modifies pool
      ensures pool.Valid() && FreeIds(pool.items)
      ensures pool.items == Released(old(pool.items), id) && StrictlyAscending(pool.items)
    {
      ReleasedPool(pool.items, id);
      pool.Enqueue(id);
      pool.OrderByAscending();
    }

    /** Send(targetClientID, writablePacket): packs the packet and writes it
        to a registered client while the server is writable. */
    method Send(id: uint32, packet: WritablePacket) returns (r: Outcome)
      requires Valid() && packet.Valid() && !packet.disposed
      modifies this`io
      ensures !common.isWritable || id !in clients ==> r == Completed && io == old(io)
      ensures common.isWritable && id in clients ==>
        var frame := EncodeFrame(packet.packetType, packet.sourceClientId, packet.buffer);
        (io, r) == SendPass(conns, [clients[id]], frame, old(io))
    {
      if !common.isWritable {
        return Completed;
      }
      var data := PackOwnPacket(packet);
      r := SendBytes(id, data);
    }

    /** The private Send(targetClientID, dataToSend, offset, count). */
    method SendBytes(id: uint32, data: seq<byte>) returns (r: Outcome)
      requires Valid()
      modifies this`io
      ensures id !in clients ==> r == Completed && io == old(io)
      ensures id in clients ==> (io, r) == SendPass(conns, [clients[id]], data, old(io))
    {
      if !IsValidClient(id) {
        return Completed;
      }
      r := SendOne(clients[id], data);
    }

    /** BeginWrite on connection h's stream. */
    method SendOne(h: Handle, data: seq<byte>) returns (r: Outcome)
      requires h < |conns|
      modifies this`io
      ensures (io, r) == SendPass(conns, [h], data, old(io))
    {
      if conns[h].stream != Open {
        return Threw(StreamFault(conns[h].stream));
      }
      io := io + [BeginWrite(h, data, false)];
      r := Completed;
    }

    /** Broadcast(writablePacket): the same frame to every registered client
        in dictionary order; a client without an open stream ends the loop. */
    method Broadcast(packet: WritablePacket) returns (r: Outcome)
      requires Valid() && packet.Valid() && !packet.disposed
      modifies this`io
      ensures !common.isWritable ==> r == Completed && io == old(io)
      ensures common.isWritable ==>
        var frame := EncodeFrame(packet.packetType, packet.sourceClientId, packet.buffer);
        (io, r) == SendPass(conns, HandlesOf(clients, order), frame, old(io))
    {
      if !common.isWritable {
        return Completed;
      }
      var data := PackOwnPacket(packet);
      r := SendToAll(HandlesOf(clients, order), data);
    }

    /** Broadcast's loop over connectedClients.Keys, visiting the connections hs. */
    method SendToAll(hs: seq<Handle>, data: seq<byte>) returns (r: Outcome)
      requires InRange(hs, conns)
      modifies this`io
      ensures (io, r) == SendPass(conns, hs, data, old(io))
    {
      var i := 0;
      while i < |hs|
        invariant 0 <= i <= |hs|
        invariant SendPass(conns, hs[i..], data, io) == SendPass(conns, hs, data, old(io))
      {
        assert hs[i..][1..] == hs[i + 1..];
        r := SendOne(hs[i], data);
        if r.Threw? {
          return;
        }
        i := i + 1;
      }
      r := Completed;
    }

    /** Stop(isForced): visits every registered connection in dictionary
        order, then reports the stop, stops listening and clears the three
        flags; a notice that cannot be written ends it with the exception. */
    method Stop(forced: bool) returns (r: Result<bool>)
      requires Valid()
      modifies this`conns, this`io, this`events, common`isReady, common`isReadable, common`isWritable
      ensures Valid()
      ensures !old(common.isReady) ==>
        && r == Ok(false) && conns == old(conns) && io == old(io) && events == old(events)
        && common.isReady == old(common.isReady)
        && common.isReadable == old(common.isReadable) && common.isWritable == old(common.isWritable)
      ensures old(common.isReady) ==>
        var p := StopPass(old(conns), HandlesOf(clients, order), forced, old(io));
        && conns == p.0
        && (p.2.Threw? ==>
              && r == Err(p.2.error) && io == p.1 && events == old(events)
              && common.isReady == old(common.isReady)
              && common.isReadable == old(common.isReadable) && common.isWritable == old(common.isWritable))
        && (p.2 == Completed ==>
              && r == Ok(true) && io == p.1 + [StopListening]
              && events == old(events) + [Stopped]
              && !common.isReady && !common.isReadable && !common.isWritable)
    {
      if !common.isReady {
        return Ok(false);
      }
      var hs := HandlesOf(clients, order);
      var failed := ShutAll(hs, forced);
      StopPassKeepsRegistry(old(conns), hs, forced, old(io), clients, order);
      if failed.Threw? {
        return Err(failed.error);
      }
      events := events + [Stopped];
      io := io + [StopListening];
      common.isWritable := false;
      common.isReadable := false;
      common.isReady := false;
      r := Ok(true);
    }

    /** Stop's loop over connectedClients, visiting the connections hs. */
    method ShutAll(hs: seq<Handle>, forced: bool) returns (r: Outcome)
      requires InRange(hs, conns)
      modifies this`conns, this`io
      ensures (conns, io, r) == StopPass(old(conns), hs, forced, old(io))
    {
      var i := 0;
      while i < |hs|
        invariant 0 <= i <= |hs| && |conns| == |old(conns)|
        invariant StopPass(conns, hs[i..], forced, io) == StopPass(old(conns), hs, forced, old(io))
      {
        assert hs[i..][1..] == hs[i + 1..];
        r := ShutOne(hs[i], forced);
        if r.Threw? {
          return;
        }
        i := i + 1;
      }
      r := Completed;
    }

    /** One connection of Stop's loop: the notice unless forced, then the close. */
    method ShutOne(h: Handle, forced: bool) returns (r: Outcome)
      requires h < |conns|
      modifies this`conns, this`io
      ensures var l := old(conns[h]);
        if !forced && l.stream != Open then
          r == Threw(StreamFault(l.stream)) && conns == old(conns) && io == old(io)
        else
          r == Completed && conns == old(conns)[h := Shutdown(l)] && io == old(io) + ShutRequests(h, forced, l)
    {
      var l := conns[h];
      if !forced {
        if l.stream != Open {
          return Threw(StreamFault(l.stream));
        }
        var data := PackStoppedFrame();
        io := io + [BlockingWrite(h, data)];
      }
      if l.stream != NoStream {
        io := io + [Close(h)];
      }
      conns := conns[h := Shutdown(l)];
      r := Completed;
    }
  }
}

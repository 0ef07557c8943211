# JustNet in Dafny

A model of JustNet, a small C# TCP client/server library. It covers the wire frame, the typed packet cursors, the identifier pool and the two network engines. Each engine is modelled as a sequential state machine, and the model proves properties of it.

- **Wire frame** (`PacketPacker`). A frame is a 2-byte type tag, then a 4-byte little-endian source id, then the payload. The type tag is the one-byte `PacketType` written as a `char`. Encoding is modelled by `EncodeFrame`, and decoding, with every exception it can raise, by `Unpack`. Two lemmas relate them. `FrameRoundTrip` shows a frame decodes back to what was encoded. `UnpackThenEncode` shows decoded bytes re-encode to the same bytes exactly when byte 1 is zero.
- **Typed values** (`Values`). There is one constructor per `Write`/`Read` overload. `Encode` and `Decode` follow `BitConverter`'s little-endian layout and two's-complement signed types. `ValueRoundTrip` shows every value reads back as written. `DecodeEncode` shows the converse holds for every type except `bool`.
- **Writable packet** (`Writing`). `WritablePacket` is a class over the byte list, with `Write`, `WriteString`, `Insert` and the dispose-once flag of the `Packet` base.
- **Readable packet** (`Reading`). `ReadablePacket` is a class over a payload array with the `readPosition`/`lastReadSize` cursor. Its methods are proved against the pure step functions `ReadValue` and `ReadStringStep`. Lemmas about those functions show:
  - `Undo` after one read restores the earlier position, including after `ReadString`;
  - a sequence of writes reads back value by value.
- **Identifier pool** (`Utility.UniqueQueue`). A duplicate-free FIFO queue. `OrderByAscending` is proved to produce a strictly ascending permutation.
- **Shared runner state** (`RunnerCommon.Common`). It holds the readiness flags, the guarded `ReadBufferSize` and `Port` setters, and the four constructors. `PackerConfig` models the static `PacketPacker.ReadBufferSize` that every runner shares.
- **Server** (`ServerEngine.Server`). Each asynchronous completion handler is a method: accept, id written, handshake reply, and read completed. I/O requests are appended to `io` and user callbacks to `events`. `NetTcpClient` objects are entries of `conns`, addressed by handle, so that the dictionary and the pending callbacks share the same object. Loops are proved against the pure passes `StopPass` and `SendPass`.
- **Client** (`ClientEngine.Client`). Modelled the same way, with its one stream and an in-place read buffer array.
- **Protocol** (`Protocol`). Lemmas that feed the frames one side writes into the other side's decisions:
  - the id announcement is taken as the id;
  - the reply is confirmed;
  - the stop notice and the disconnect request, both written with `int`-sized codes, are still honoured;
  - CUSTOM frames are delivered.

  The *resent* announcement is where the two sides disagree. Its code is written as an `int`, but the client reads it with `ReadByte` followed by `ReadUInt`. That takes three zero bytes and the id's low byte as the id, which gives `Misread(id)`. The lemmas prove:
  - `Misread(id)` is never the issued id;
  - the client's reply from that id is then refused by the server's `throw new Exception()`.

Where the code departs from the library's documented design, the model follows the code:
- `DisconnectClient` keeps the dictionary entry and only resets its connection. Because of this, a later `Broadcast` or graceful `Stop` that reaches that entry throws on its null stream. `SendPassEffect` and `StopPassEffect` state this.
- A handshake reply of the wrong type or source throws. Only a different code causes a resend, and the resend has no bound.
- A frame that is too short raises the exception `BitConverter` or `ArraySegment` throws; it is not dropped.
- A SYSTEM frame whose payload is over the read buffer size raises `NullReferenceException`. Its payload was dropped, and `ReadByte` then dereferences it.
- A CUSTOM frame from a valid source whose payload is over the read buffer size raises nothing. It is delivered without a payload and the read is re-armed (`CustomFramesDelivered`).
- The pool is ascending only after a release. A second `Run` appends behind the ids still free (`RerunPoolExample`).
- A fixed-width read that runs past the end raises `ArgumentException` from `BitConverter`, not the library's own "Unable to read" message. The library's message appears only when the position is already at or past the end.

## Model

| member | source | states |
|---|---|---|
| Bytes.LittleEndian | JustNet/WritablePacket.cs:47-50 | GetBytes of an n-byte number yields exactly n bytes |
| Bytes.FromLittleEndian | JustNet/ReadablePacket.cs:115-128 | ToUInt32 and the other unsigned reads give a value below 256^n |
| Bytes.LittleEndianRoundTrip | JustNet/WritablePacket.cs:47-50 | a number that fits n bytes decodes back from its n little-endian bytes |
| Bytes.FromLittleEndianRoundTrip | JustNet/ReadablePacket.cs:115-128 | re-encoding the number read from n bytes gives those bytes |
| Bytes.FirstByteIsLow | JustNet/WritablePacket.cs:42-45 | the first byte written for a number is its low-order byte, which ReadByte sees |
| Bytes.TwoBytes | JustNet/PacketPacker.cs:33 | the 2-byte char tag is tag byte then 0, and decodes as b0 + 256*b1 |
| Bytes.TwosComplement | JustNet/WritablePacket.cs:32-35 | a signed value's bits fit the unsigned range of its width |
| Bytes.Signed | JustNet/ReadablePacket.cs:70-83 | reading signed bits gives a value in the signed range |
| Bytes.SignedRoundTrip | JustNet/WritablePacket.cs:32-35 | signed to bits to signed is the identity |
| Bytes.TwosComplementOfSigned | JustNet/ReadablePacket.cs:70-83 | bits to signed to bits is the identity |
| Bytes.UInt32OfInt | JustNet/NetworkRunner_Common.cs:67-73 | the unchecked (uint) cast keeps non-negative ints and is the 4-byte two's complement, so reading the bits back as signed gives the int |
| Bytes.SubUInt32 | JustNet/ReadablePacket.cs:45 | uint subtraction wraps modulo 2^32 |
| Bytes.Zeros | JustNet/NetworkRunner_Server.cs:40 | a new or cleared buffer of n bytes holds n zeros |
| Constant.CodeSpacesDisjoint | JustNet/Constant.cs:26-36 | server codes are odd, client codes even, so no code is both |
| Values.Encode | JustNet/WritablePacket.cs:27-87 | each Write overload appends exactly sizeof(T) bytes |
| Values.Decode | JustNet/ReadablePacket.cs:55-235 | each Read overload yields a value of its own type |
| Values.ValueRoundTrip | JustNet/WritablePacket.cs:27-87 | every written value reads back unchanged |
| Values.DecodeEncode | JustNet/ReadablePacket.cs:191-204 | read bytes re-encode to themselves, except for bool, which does so exactly when the byte is 0 or 1 |
| Writing.StringBytes | JustNet/WritablePacket.cs:77-82 | Write(string) appends a 4-byte length equal to the byte count, then the bytes |
| Writing.WritablePacket.constructor | JustNet/WritablePacket.cs:12-15 | records type and source id, with an empty buffer |
| Writing.WritablePacket.WithData | JustNet/WritablePacket.cs:17-21 | records type and source id, with a copy of the bytes |
| Writing.WritablePacket.Insert | JustNet/WritablePacket.cs:25 | inserts at a valid index, shifting later bytes and growing Size; throws otherwise |
| Writing.WritablePacket.Write | JustNet/WritablePacket.cs:27-87 | appends the value's bytes and leaves earlier bytes untouched |
| Writing.WritablePacket.WriteString | JustNet/WritablePacket.cs:77-82 | appends the length prefix and the bytes |
| Writing.WritablePacket.Dispose | JustNet/Packet.cs:26-45 | the first call drops the buffer and sets the flag, and DisposeFunction runs once; later calls change nothing |
| Reading.ReadValue | JustNet/ReadablePacket.cs:55-204 | a read succeeds exactly when the payload exists and holds the width; it advances by the width and records it; a failed read leaves the cursor alone |
| Reading.ReadStringStep | JustNet/ReadablePacket.cs:206-220 | a null payload throws NullReference, a position at or past the end throws "Unable to read", a length prefix that runs past the end throws Argument; all three leave the cursor alone. Otherwise the read succeeds exactly when the prefix is non-negative and that many bytes follow it, returning those bytes and recording length + 4. A refused length throws ArgumentOutOfRange with the cursor past the prefix |
| Reading.UndoAfterRead | JustNet/ReadablePacket.cs:45 | Undo right after a successful read restores the earlier position |
| Reading.UndoAfterReadString | JustNet/ReadablePacket.cs:206-216 | one Undo rewinds a whole string read |
| Reading.ReadAfterWrite | JustNet/ReadablePacket.cs:100-128 | a written value reads back at its offset, whatever surrounds it |
| Reading.ReadStringAfterWrite | JustNet/ReadablePacket.cs:206-220 | a written string reads back whole |
| Reading.ReadValuesAfterWrites | JustNet/ReadablePacket.cs:55-235 | reading back a sequence of writes in order yields the values written |
| Reading.ReadablePacket.constructor | JustNet/ReadablePacket.cs:19-29 | keeps a payload within ReadBufferSize and drops a longer one, but records the header either way |
| Reading.ReadablePacket.WithStart | JustNet/ReadablePacket.cs:31-41 | as above, with the start position cast to uint |
| Reading.ReadablePacket.Clear | JustNet/ReadablePacket.cs:43 | zeroes every payload byte and keeps the length; a null payload throws |
| Reading.ReadablePacket.Undo | JustNet/ReadablePacket.cs:45 | moves the position back by the last read size |
| Reading.ReadablePacket.ResetRead | JustNet/ReadablePacket.cs:49-53 | sets position and last read size to 0 |
| Reading.ReadablePacket.Read | JustNet/ReadablePacket.cs:55-204 | result and new cursor are those of ReadValue |
| Reading.ReadablePacket.ReadString | JustNet/ReadablePacket.cs:206-220 | result and new cursor are those of ReadStringStep, so every failure case above holds for the method |
| Reading.ReadablePacket.Dispose | JustNet/ReadablePacket.cs:242-247 | the first call drops the payload and resets the cursor; later calls change nothing |
| Packer.PackerConfig.constructor | JustNet/PacketPacker.cs:27 | the shared ReadBufferSize starts at 1024 |
| Packer.FrameLayout | JustNet/PacketPacker.cs:29-38 | frame length is 6 + payload; bytes are tag, 0, the id little-endian, then the payload |
| Packer.Unpack | JustNet/PacketPacker.cs:40-48 | decoding succeeds exactly when 6 <= count <= length; the type is byte 0, the id bytes 2-5 and the payload data[6..count] |
| Packer.FrameRoundTrip | JustNet/PacketPacker.cs:29-48 | decoding an encoded frame at its own length gives type, id and payload back, whatever follows it |
| Packer.UnpackThenEncode | JustNet/PacketPacker.cs:40-48 | a decoded frame re-encodes to its bytes exactly when byte 1 is 0 |
| Packer.LeadingByte | JustNet/NetworkRunner_Server.cs:208 | ReadByte on an incoming packet gives the first payload byte exactly when the payload is kept and non-empty |
| Packer.UIntAfterLeadingByte | JustNet/NetworkRunner_Client.cs:97 | ReadUInt after ReadByte gives payload bytes 1-4 exactly when the payload has 5 bytes |
| Packer.PackOutgoingPacket | JustNet/PacketPacker.cs:29-38 | the frame is the tag, the given source id, then the packet's bytes |
| Packer.PackOwnPacket | JustNet/NetworkRunner_Server.cs:164 | the one-argument form uses the packet's own source id |
| Packer.PackIncomingPacket | JustNet/PacketPacker.cs:40-48 | builds a packet from the decoded frame, or throws the decoding error |
| Packer.GetWritablePacket | JustNet/PacketPacker.cs:60-63 | an empty CUSTOM packet |
| Packer.GetWritablePacketWith | JustNet/PacketPacker.cs:65-68 | a CUSTOM packet holding a copy of the bytes |
| Utility.EnqueuedKeepsNoDuplicates | JustNet/Utility.cs:36-44 | Enqueue keeps the queue duplicate-free and adds exactly the element |
| Utility.InsertAscending | JustNet/Utility.cs:55 | insertion into an ascending sequence stays ascending and adds exactly the element |
| Utility.SortAscending | JustNet/Utility.cs:55 | OrderBy(x => x) gives an ascending permutation |
| Utility.InsertAscendingKeepsNoDuplicates | JustNet/Utility.cs:51-66 | inserting a new element keeps the sequence duplicate-free |
| Utility.SortKeepsNoDuplicates | JustNet/Utility.cs:51-66 | sorting a duplicate-free queue gives a strictly ascending one |
| Utility.SortAscendingIdempotent | JustNet/Utility.cs:51-66 | sorting an ascending queue changes nothing |
| Utility.FrontIsSmallest | JustNet/Utility.cs:46-49 | the front of an ascending queue is its smallest element |
| Utility.UniqueQueue.constructor | JustNet/Utility.cs:31-34 | starts empty |
| Utility.UniqueQueue.Enqueue | JustNet/Utility.cs:36-44 | an element already present changes nothing; a new one goes to the back |
| Utility.UniqueQueue.Dequeue | JustNet/Utility.cs:46-49 | removes and returns the front and lowers Count by one; an empty queue throws |
| Utility.UniqueQueue.OrderByAscending | JustNet/Utility.cs:51-66 | the contents become their sorted order, strictly ascending |
| RunnerCommon.Common.constructor | JustNet/NetworkRunner_Common.cs:59-65 | buffer size 1024, shared size set too, port 12345 |
| RunnerCommon.Common.WithReadBufferSize | JustNet/NetworkRunner_Common.cs:67-73 | the size cast to uint, port 12345 |
| RunnerCommon.Common.WithPort | JustNet/NetworkRunner_Common.cs:75-81 | buffer size 1024, the given port |
| RunnerCommon.Common.WithReadBufferSizeAndPort | JustNet/NetworkRunner_Common.cs:83-89 | both given values |
| RunnerCommon.Common.SetReadBufferSize | JustNet/NetworkRunner_Common.cs:14-27 | ignored while running; otherwise sets the instance size and the shared size |
| RunnerCommon.Common.SetPort | JustNet/NetworkRunner_Common.cs:29-41 | ignored while running; otherwise stores the port |
| RunnerCommon.NewCommon | JustNet/NetworkRunner_Common.cs:59-89 | the overload picked by the arguments given |
| ServerEngine.PackIdFrame | JustNet/NetworkRunner_Server.cs:159-164 | the announcement frame: the code as a byte, or as an int on the resend path, then the id |
| ServerEngine.PackStoppedFrame | JustNet/NetworkRunner_Server.cs:411-414 | the stop notice frame with the code as an int |
| ServerEngine.FilledFromEmpty | JustNet/NetworkRunner_Server.cs:121-124 | on an empty pool Run leaves exactly 1..MaxConnection, strictly ascending |
| ServerEngine.FilledContents | JustNet/NetworkRunner_Server.cs:121-124 | filling keeps the pool duplicate-free, keeps its front, and adds exactly the missing ids of 1..n |
| ServerEngine.RerunPoolExample | JustNet/NetworkRunner_Server.cs:121-124 | a second Run appends behind the free ids, so the pool is no longer ascending |
| ServerEngine.ReleasedPool | JustNet/NetworkRunner_Server.cs:394-395 | releasing an id leaves a strictly ascending duplicate-free pool with that id added and the smallest id in front |
| ServerEngine.ReleaseOrderExample | JustNet/NetworkRunner_Server.cs:394-395 | with 2 free, releasing 3 then 1 gives 1, 2, 3 |
| ServerEngine.JudgeReply | JustNet/NetworkRunner_Server.cs:201-239 | a reply is confirmed iff it is SYSTEM from the issued id with RECEIVED_ID_WELL; a resend happens iff another code; a wrong type or source throws |
| ServerEngine.JudgeLoopFrame | JustNet/NetworkRunner_Server.cs:338-365 | an unregistered source ends the loop; SYSTEM DISCONNECT_REQUEST disconnects the source; CUSTOM is delivered; each case holds in both directions |
| ServerEngine.Received | JustNet/NetworkRunner_Server.cs:336 | EndRead writes the received bytes over the front of the buffer and keeps the rest |
| ServerEngine.StopPass | JustNet/NetworkRunner_Server.cs:407-422 | Stop's loop keeps the number of connections |
| ServerEngine.StopPassEffect | JustNet/NetworkRunner_Server.cs:407-422 | the loop completes iff forced or every stream is open; it shuts each visited connection and no other |
| ServerEngine.StopPassKeepsLog | JustNet/NetworkRunner_Server.cs:407-422 | the loop only appends requests |
| ServerEngine.StopPassRequests | JustNet/NetworkRunner_Server.cs:409-419 | a completed loop wrote the notice to every client unless forced, and closed every stream it found |
| ServerEngine.ForcedStopShutsAll | JustNet/NetworkRunner_Server.cs:407-422 | a forced stop completes and shuts every registered client's connection |
| ServerEngine.OpenPrefix | JustNet/NetworkRunner_Server.cs:277-280 | counts the open-stream connections at the front |
| ServerEngine.SendPassEffect | JustNet/NetworkRunner_Server.cs:277-280 | Broadcast writes to the open prefix in order and throws at the first connection without an open stream |
| ServerEngine.StopPassKeepsRegistry | JustNet/NetworkRunner_Server.cs:400-436 | Stop's loop changes no id, key or buffer |
| ServerEngine.HandlesOf | JustNet/NetworkRunner_Server.cs:277 | the connections the keys map to, in key order |
| ServerEngine.Server.constructor | JustNet/NetworkRunner_Server.cs:74-98 | not ready, MaxConnection 5, empty pool and dictionary, client id SERVER_ID |
| ServerEngine.Server.SetMaxConnection | JustNet/NetworkRunner_Server.cs:46-58 | ignored once ready |
| ServerEngine.Server.Run | JustNet/NetworkRunner_Server.cs:105-142 | fails with no change when ready or without an address; otherwise fills the pool, listens, reports the start, sets IsReady and accepts while ids are left |
| ServerEngine.Server.FillPool | JustNet/NetworkRunner_Server.cs:121-124 | the pool becomes Filled(old pool, n) |
| ServerEngine.Server.AcceptCallback | JustNet/NetworkRunner_Server.cs:144-173 | takes the front id, resets its connection on the new stream, announces the id, and accepts again while ids are left; an empty pool throws |
| ServerEngine.Server.TakeId | JustNet/NetworkRunner_Server.cs:151 | Dequeue returns the front id, never SERVER_ID |
| ServerEngine.Server.Admit | JustNet/NetworkRunner_Server.cs:155-157 | reuses the registered connection of the id, or adds a new one |
| ServerEngine.Server.Announce | JustNet/NetworkRunner_Server.cs:159-172 | writes the announcement and accepts again while ids are left |
| ServerEngine.Server.IdSentCallback | JustNet/NetworkRunner_Server.cs:175-187 | waits for the reply with a handshake read |
| ServerEngine.Server.ConfirmCallback | JustNet/NetworkRunner_Server.cs:189-241 | a confirmed reply registers the id at most once, sets readable and writable, and starts the read loop; another code resends; a mismatch throws |
| ServerEngine.Server.Confirm | JustNet/NetworkRunner_Server.cs:210-226 | the confirmed branch: register once, set the flags, Read, report the connection |
| ServerEngine.Server.Read | JustNet/NetworkRunner_Server.cs:283-291 | nothing unless readable and registered; otherwise arms the read once |
| ServerEngine.Server.ReadConnection | JustNet/NetworkRunner_Server.cs:293-314 | nothing while reading; otherwise sets IsReading, clears the buffer and reads |
| ServerEngine.Server.StopRead | JustNet/NetworkRunner_Server.cs:316-324 | clears IsReading of a registered client and changes nothing else |
| ServerEngine.Server.ReadCallback | JustNet/NetworkRunner_Server.cs:326-365 | per JudgeLoopFrame: disconnect the source, deliver and re-arm, re-arm, or end the loop |
| ServerEngine.Server.Fill | JustNet/NetworkRunner_Server.cs:336 | the received bytes land in the connection's buffer |
| ServerEngine.Server.Answer | JustNet/NetworkRunner_Server.cs:340-364 | the effect of each read-loop verdict |
| ServerEngine.Server.DisconnectClient | JustNet/NetworkRunner_Server.cs:367-398 | succeeds iff registered; resets the connection with no stream, keeps the entry, releases the id ascending and reports the disconnection |
| ServerEngine.Server.Detach | JustNet/NetworkRunner_Server.cs:387-392 | closes the stream and re-initialises the connection without one |
| ServerEngine.Server.ReleaseId | JustNet/NetworkRunner_Server.cs:394-395 | the pool becomes Released(old pool, id), strictly ascending |
| ServerEngine.Server.Send | JustNet/NetworkRunner_Server.cs:243-253 | nothing unless writable and registered; otherwise writes the packed frame |
| ServerEngine.Server.SendBytes | JustNet/NetworkRunner_Server.cs:255-266 | writes to a registered client only |
| ServerEngine.Server.SendOne | JustNet/NetworkRunner_Server.cs:262-265 | BeginWrite needs an open stream |
| ServerEngine.Server.Broadcast | JustNet/NetworkRunner_Server.cs:268-281 | nothing unless writable; otherwise writes the frame to every key in dictionary order |
| ServerEngine.Server.SendToAll | JustNet/NetworkRunner_Server.cs:277-280 | the loop's requests and outcome are SendPass's |
| ServerEngine.Server.Stop | JustNet/NetworkRunner_Server.cs:400-436 | false when not ready; otherwise shuts every connection and clears the flags, leaving pool and dictionary alone |
| ServerEngine.Server.ShutAll | JustNet/NetworkRunner_Server.cs:407-422 | the loop's connections, requests and outcome are StopPass's |
| ServerEngine.Server.ShutOne | JustNet/NetworkRunner_Server.cs:409-421 | sends the notice unless forced, closes the stream and clears IsReading |
| ClientEngine.JudgeAnnouncement | JustNet/NetworkRunner_Client.cs:84-122 | a non-SYSTEM frame or one not from the server is ignored; SERVER_CLIENT_ID_SEND assigns the uint after the code; another code waits; each case holds in both directions |
| ClientEngine.JudgeServerFrame | JustNet/NetworkRunner_Client.cs:174-198 | a frame not from the server ends the loop; SERVER_HAS_STOPPED stops the client; CUSTOM is delivered; each case holds in both directions |
| ClientEngine.Client.constructor | JustNet/NetworkRunner_Client.cs:30-44 | ClientID uint.MaxValue, size 1024, port 12345, no stream |
| ClientEngine.Client.Run | JustNet/NetworkRunner_Client.cs:46-68 | false when ready; otherwise becomes ready, reports the start and connects |
| ClientEngine.Client.ConnectCallback | JustNet/NetworkRunner_Client.cs:70-80 | a zeroed buffer of the current size and a handshake read |
| ClientEngine.Client.Land | JustNet/NetworkRunner_Client.cs:84 | the received bytes land at the front of the buffer |
| ClientEngine.Client.ClearFront | JustNet/NetworkRunner_Client.cs:157 | Array.Clear zeroes the first n bytes and keeps the rest |
| ClientEngine.Client.ArmRead | JustNet/NetworkRunner_Client.cs:160 | BeginRead needs an open stream and a count within the buffer |
| ClientEngine.Client.IdReceiveCallback | JustNet/NetworkRunner_Client.cs:82-124 | per JudgeAnnouncement: take the id, reply, set readable and writable, and start the loop; or read again; or drop |
| ClientEngine.Client.Welcome | JustNet/NetworkRunner_Client.cs:95-117 | the assignment branch in full |
| ClientEngine.Client.PackReply | JustNet/NetworkRunner_Client.cs:99-103 | the RECEIVED_ID_WELL frame from the new id |
| ClientEngine.Client.Send | JustNet/NetworkRunner_Client.cs:126-141 | nothing unless writable; otherwise writes the packed frame |
| ClientEngine.Client.Read | JustNet/NetworkRunner_Client.cs:143-161 | nothing unless readable and not reading; otherwise clears the buffer, sets IsReading and reads |
| ClientEngine.Client.StopRead | JustNet/NetworkRunner_Client.cs:163 | clears IsReading |
| ClientEngine.Client.ReadCallback | JustNet/NetworkRunner_Client.cs:165-203 | per JudgeServerFrame: stop without a notice, deliver and re-arm, re-arm, or end the loop |
| ClientEngine.Client.Respond | JustNet/NetworkRunner_Client.cs:178-202 | the effect of each read-loop verdict |
| ClientEngine.Client.Stop | JustNet/NetworkRunner_Client.cs:205-235 | false when not ready; otherwise writes the disconnect request unless forced, closes, and clears the three flags |
| ClientEngine.Client.PackDisconnect | JustNet/NetworkRunner_Client.cs:214-218 | the DISCONNECT_REQUEST frame with the code as an int |
| Protocol.SmallIntBytes | JustNet/NetworkRunner_Server.cs:413 | an int-sized small code is that byte followed by three zeros |
| Protocol.AnnouncementDelivered | JustNet/NetworkRunner_Server.cs:159-166 | the client takes the announced id |
| Protocol.ReplyConfirmed | JustNet/NetworkRunner_Client.cs:99-105 | the server confirms the client's reply |
| Protocol.MisreadDiffers | JustNet/NetworkRunner_Client.cs:97 | the misread id is never the issued one |
| Protocol.ResendPayload | JustNet/NetworkRunner_Server.cs:232-233 | payload bytes 1-4 of the resend are three zeros and the id's low byte |
| Protocol.ResendMisread | JustNet/NetworkRunner_Server.cs:230-237 | the client takes Misread(id) from the resent announcement |
| Protocol.MisreadReplyRefused | JustNet/NetworkRunner_Server.cs:203-206 | the reply from the misread id makes the server throw |
| Protocol.StopNoticeStopsClient | JustNet/NetworkRunner_Server.cs:411-414 | the int-coded stop notice stops the client |
| Protocol.DisconnectRequestHonoured | JustNet/NetworkRunner_Client.cs:214-218 | the int-coded disconnect request disconnects that registered client |
| Protocol.CustomFramesDelivered | JustNet/NetworkRunner_Server.cs:356-359 | CUSTOM frames are delivered by both sides; an unregistered source ends the server's loop |

## Left out

- Sockets, `TcpListener`/`TcpClient` and the `Begin*`/`End*` calls are I/O. They are modelled as request logs (`io`) and as the methods the completions call.
- `Utility.GetLocalIPAddress` (DNS) and `IPAddress.Parse` are foreign calls. They are parameters: whether an IPv4 address exists, and what `Parse` threw.
- Failures of `EndAccept`, `EndConnect`, `EndRead` and `EndWrite` are not modelled. Neither are the `TcpClient` handles, which are folded into the stream state.
- Concurrency between completion handlers is not modelled. The model is a sequential interleaving of callback methods.
- IEEE float/double meaning is not modelled: floats and doubles are opaque 4- and 8-byte chunks.
- UTF-8 encoding is a library call. Strings are the byte sequences behind the length prefix.
- User callbacks are foreign code. They are recorded as `events`, whether a handler is set or not. `INetworkData` is left out as well.
- `NetworkRunner.cs` is a lazily built singleton facade and is not modelled.
- GC finalization and `SuppressFinalize` are left out; only the `disposed` flag is kept. The short-lived packets the engines build inside `using` blocks are disposed in the model but not tracked afterwards.
- The nested copies of `WritablePacket` and `ReadablePacket` in `PacketPacker.cs:73-450` are not modelled separately.
- The property getters are plain readers of the modelled state, with no contract of their own. The engines' contracts use them directly:
  - `Writing.WritablePacket.Size` and `Writing.WritablePacket.ToArray` (JustNet/WritablePacket.cs:10, 23) read the buffer;
  - `Utility.UniqueQueue.Count` and `Utility.UniqueQueue.Contains` (JustNet/Utility.cs:27-29) read the queue;
  - `RunnerCommon.Common.IsRunning` (JustNet/NetworkRunner_Common.cs:51) is the conjunction of the three flags;
  - `ServerEngine.Server.IsFull` (JustNet/NetworkRunner_Server.cs:60) tests for an empty pool;
  - `ServerEngine.Server.IsValidClient` (JustNet/NetworkRunner_Server.cs:100-103) tests for a dictionary key.
- `ConnectedClientsCount` (JustNet/NetworkRunner_Server.cs:62) is `|clients|` and has no member of its own.
- `ServerEngine.Server.Run`: requires `maxConnection < UINT32_MAX`. With `uint.MaxValue`, the `for` loop's `i <= MaxConnection` never fails, so the source never returns.
- `Writing.WritablePacket.Write`, `Writing.WritablePacket.WriteString`, `Writing.WritablePacket.Insert`, `Packer.PackOutgoingPacket` and `Packer.PackOwnPacket` require a packet that is not disposed. So do `ServerEngine.Server.Send`, `ServerEngine.Server.Broadcast` and `ClientEngine.Client.Send`. On a disposed packet the source throws `NullReferenceException`, which the model does not cover.
- `Packer.GetWritablePacket`: the source builds the nested packet class, which has no source id field. The model gives it `SERVER_ID`.
- `ServerEngine.Server.ReadCallback`, `ServerEngine.Server.ConfirmCallback`, `ClientEngine.Client.IdReceiveCallback` and `ClientEngine.Client.ReadCallback` require that the received bytes fit the buffer. `EndRead` never returns more bytes than were requested.
- `ServerEngine.Server.ReadConnection` and `ServerEngine.Server.IdSentCallback` do not model the `ArgumentOutOfRangeException` that `BeginRead` raises when the server's read buffer size has been raised above a connection's buffer length. The size can change after the buffer was allocated, but only while the server is not running.
- `ClientEngine.Client.ReadCallback` reads through the client's current stream rather than the stream passed as the completion's state. The model does not record which stream a pending read was armed on. Suppose a read is armed before a `Stop` and completes after a later `Run` and `ConnectCallback`. The model lands its bytes and re-arms on the new stream. The source calls `EndRead` on the old, closed stream and throws. That is one of the `EndRead` failures listed above as not modelled.
- `ClientEngine.Client.Stop`: leaves `IsReading` as it is, as the source does, so a later read completion is ignored only because `IsReady` is false.
- `ServerEngine.Server.Valid`: keeps the pool duplicate-free and free of `SERVER_ID`, but not ascending or within 1..MaxConnection. Neither holds in the source. A second `Run` appends ids behind the free ones (`RerunPoolExample`). `MaxConnection` can also be lowered between a `Stop` and the next `Run`, and ids above the new value still return to the pool on disconnect.

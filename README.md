# A verified model of a small distributed file service

The service keeps files in one directory on a server.
- Clients reach the server over TCP.
- Each client takes a read or write lock on a path.
- The client fetches the file into a local cache when its copy is missing or stale.
- The client edits the cached copy through a file handle.
- On close, the client uploads the file if it changed, then releases the lock.

Two generations of the code are modelled:

- **The packet protocol.** A frame is a 4-byte big-endian command id, a 4-byte big-endian length, then the payload. Its parts:
  - `common/` has the command table, the framing and the payload codec;
  - `server/` has the lock table, the file store and the per-connection handler;
  - `client/` has the network client, the cache, the open logic and the file handle.
- **The older line protocol.** Its commands OPEN, WRITEBACK and CLOSE travel as `\n`-terminated UTF-8 lines. Its parts:
  - the root-level `ClientHandler`, `DFSClient` and `FileHandler`;
  - a `LockManager` built on `ReentrantReadWriteLock`;
  - `Server.safeResolve`.

How the model is built:

- **Pure code becomes functions.** This covers framing, payload encoding and parsing, path resolution, and the download decision. Each round trip and refusal is proved as a lemma.
- **Objects that update fields become classes.** This covers `FileLockInfo`, `LockManager`, `FileManager`, `ClientHandler`, `NetworkClient`, `ClientCacheManager`, `RandomAccessFile`, `DFSFileHandle`, `DFSClient` and `FileHandler`. Each method is proved against a specification function of the old state, for example `Locks.LockManager.Lock` against `Locks.LockSpec`.
- **Sockets become sequences.**
  - A byte stream is a `seq<byte>` with a read position.
  - The other side of a connection is the bytes it sends back.
  - What a party writes is the sequence of its writes.
- **Each connection is a function, and the handler's loop is a method.**
  - `ServerHandler.Serve` and `LineServer.Serve` give everything a connection does as a function of the bytes the client sends.
  - The handler's `while` loop is a method proved against that function.
- **Clocks are parameters.**
  - File modification times come from a `now` parameter.
  - In the server loop, they come from a `clock` function of the turn number.

Modules:

| module | file | models |
|---|---|---|
| `Bytes` | bytes.dfy | bytes, two's-complement big-endian `int`/`long` |
| `Failures` | failures.dfy | the Java exceptions as one `Error` type, `Result`, `Option` |
| `Streams` | streams.dfy | `DataInputStream`/`DataOutputStream` over byte sequences |
| `Utf8` | utf8.dfy | `String.getBytes(UTF_8)` and its decoding |
| `Commands`, `Packets` | command.dfy, packet.dfy | `common/Command.java`, `common/Packet.java` |
| `SocketIO` | socketio.dfy | `common/SocketIO.java` |
| `Payloads` | payload.dfy | `common/PayloadBuilder.java` |
| `LockInfo`, `Locks` | filelock.dfy, lockmanager.dfy | `server/FileLockInfo.java`, `server/LockManager.java` |
| `Paths`, `Stores`, `ServerFiles` | paths.dfy, store.dfy, filemanager.dfy | `java.nio.file.Path` resolution, `server/FileManager.java` |
| `ServerHandler`, `ServerProperties` | serverhandler.dfy, serverprops.dfy | `server/ClientHandler.java` |
| `NetClient` | netclient.dfy | `client/NetworkClient.java` |
| `ClientCache` | cache.dfy | `client/ClientCacheManager.java`, `RandomAccessFile` |
| `FileHandles` | filehandle.dfy | `client/DFSFileHandle.java` |
| `DfsClient` | dfsclient.dfy | `client/DFSClient.java` |
| `LineText` | lines.dfy | line reading and writing, `trim`, `toLowerCase`, `Integer.parseInt` |
| `RwLocks` | rwlock.dfy | `LockManager.java` (line version) and `ReentrantReadWriteLock` |
| `LineServer` | lineserver.dfy | `ClientHandler.java` and `Server.java` (line version) |
| `LineFiles`, `LineClient` | linefile.dfy, lineclient.dfy | `FileHandler.java`, `DFSClient.java` (line version) |

Where the code and its documentation disagree, the model follows the code:

- **`LockManager.lock` does not wait.** Its comment promises to block, but it returns `false` at once (`server/LockManager.java:45-71`).
- **`LOCK_REQ` does not report the lock result.**
  - `handleLockReq` replies `RES_OK` whatever `lock` returned (`server/ClientHandler.java:113-131`).
  - So a client is told it holds a lock that it was refused (`ServerProperties.RefusedWriterToldOk`).
  - The `InterruptedException` catch there is unreachable.
- **`FileManager` does not normalise its root.** A root directory holding `.` therefore accepts no path at all (`Paths.NonNormalRootRejectsAll`).
- **The line version does not compile as written, so it is modelled by its evident intent.**
  - `DFSClient.java` declares `close()` twice (lines 85 and 127). The first one is modelled.
  - `ClientHandler.java` catches an `IOException` from `Function<String,Path>.apply`, which cannot throw one. The model uses a resolver that reports the traversal refusal as that `IOException`.

## Model

| member | source | states |
|---|---|---|
| Commands.FindFirst | common/Command.java:62-67 | the command found carries the id asked for; when none is found, no command in the table has that id and the error is IllegalArgumentException |
| Commands.FromId | common/Command.java:62-67 | a command returned by fromId has the id it was asked for |
| Commands.ValuesComplete | common/Command.java:10-29 | values() lists every command |
| Commands.IdInjective | common/Command.java:10-29 | no two commands share an id |
| Commands.IdsAreKnown | common/Command.java:10-29 | the known ids are exactly the ids of the nine commands |
| Commands.FromIdOfId | common/Command.java:48-67 | fromId(c.getId()) is c for every command |
| Commands.FromIdUnknown | common/Command.java:62-67 | an unknown id is an IllegalArgumentException |
| Commands.FromIdSucceedsIffKnown | common/Command.java:62-67 | fromId succeeds exactly on the nine known ids |
| Packets.NoPayload | common/Packet.java:38-40 | the payload-less packet has the command and an empty payload |
| Bytes.Be32RoundTrip | common/SocketIO.java:42-55 | reading back a written int gives the int |
| Bytes.FromBe32Inverse | common/SocketIO.java:69-87 | any four bytes read as an int that writes back as those bytes |
| Bytes.Be32Injective | common/SocketIO.java:42-55 | distinct ints are written as distinct bytes |
| Bytes.Be64RoundTrip | client/NetworkClient.java:189-193 | reading back a written long gives the long |
| Bytes.FromBe64Inverse | client/NetworkClient.java:189-193 | any eight bytes read as a long that writes back as those bytes |
| Streams.ReadIntAt | common/SocketIO.java:73 | readInt consumes four bytes and gives an int, or EOFException when fewer remain |
| Streams.ReadFullyAt | common/SocketIO.java:81-84 | readFully gives exactly the next n bytes, or EOFException when fewer remain |
| Streams.ReadIntAtBe32 | common/SocketIO.java:73 | an int written then read gives the int and consumes four bytes |
| Streams.ByteOutput.WriteInt | common/SocketIO.java:47 | writeInt appends the four big-endian bytes of the int |
| Streams.ByteInput.Read | ClientHandler.java:53 | read gives the next byte and advances, or -1 at the end |
| Streams.ByteInput.ReadInt | common/SocketIO.java:73 | the method reads what ReadIntAt specifies and moves the position to its end |
| Streams.ByteInput.ReadFully | common/SocketIO.java:81-84 | the method reads what ReadFullyAt specifies and moves the position to its end |
| Streams.ByteInput.ReadNBytes | ClientHandler.java:122 | readNBytes(n) takes n bytes or what is left; a negative n is IllegalArgumentException |
| Utf8.EncodeChar | common/PayloadBuilder.java:167-171 | a character encodes as one to four bytes, and as one byte exactly when it is ASCII |
| Utf8.DecodeEncode | common/PayloadBuilder.java:178-187 | decoding the UTF-8 bytes of a string gives the string back |
| Utf8.EncodeInjective | common/PayloadBuilder.java:167-171 | distinct strings have distinct UTF-8 bytes |
| Utf8.EncodeAppend | FileHandler.java:32-36 | the bytes of s + t are the bytes of s then the bytes of t |
| Utf8.EncodeAscii | ClientHandler.java:61-64 | an ASCII string encodes as one byte per character, each the character's code |
| SocketIO.Send | common/SocketIO.java:42-55 | send writes exactly the frame: id, length, payload |
| SocketIO.Receive | common/SocketIO.java:69-87 | receive reads exactly what ReceiveAt specifies and moves the position to its end |
| SocketIO.FrameLayout | common/SocketIO.java:42-55 | a frame is 8 + payload bytes: the big-endian id, the big-endian length, then the payload |
| SocketIO.ReceiveFrame | common/SocketIO.java:69-87 | a whole frame of a packet at any position is received as that packet and consumed exactly |
| SocketIO.ReceiveSent | common/SocketIO.java:42-87 | what send writes, receive reads back, and no more |
| SocketIO.OversizedNotReceivable | common/SocketIO.java:76-79 | a packet whose payload is over 100 000 000 bytes is sent but refused on receipt with an IOException |
| SocketIO.BadLengthRejected | common/SocketIO.java:76-79 | a negative or oversized length is an IOException once the eight header bytes are read |
| SocketIO.UnknownIdRejected | common/SocketIO.java:74 | an unknown command id is an IllegalArgumentException after the id alone |
| SocketIO.ZeroLengthNoBody | common/SocketIO.java:80-86 | a zero length reads no body and gives an empty payload |
| SocketIO.ReceiveBounds | common/SocketIO.java:69-87 | receive never reads past the data; too few bytes for the id is EOFException |
| Payloads.WriteString | common/PayloadBuilder.java:167-171 | writeString appends the length of the UTF-8 bytes, then those bytes |
| Payloads.WriteBytes | common/PayloadBuilder.java:173-176 | writeBytes appends the length, then the bytes |
| Payloads.BuildPutFilePayload | common/PayloadBuilder.java:36-44 | the payload is the path field followed by the content field |
| Payloads.BuildLockReqPayload | common/PayloadBuilder.java:57-65 | the payload is the path field followed by the mode field |
| Payloads.BuildUnlockPayload | common/PayloadBuilder.java:74-77 | the UNLOCK payload is laid out exactly like LOCK_REQ's |
| Payloads.BuildStringPayload | common/PayloadBuilder.java:90-97 | the payload is one string field |
| Payloads.ReadEncodedAt | common/PayloadBuilder.java:178-187 | a length-prefixed field within the string limit is read, and the cursor moves past it; a bad length or a short field is an IOException |
| Payloads.ReadStringAt | common/PayloadBuilder.java:178-187 | readString stays within the data and the string limit; any failure is an IOException |
| Payloads.ReadBytesAt | common/PayloadBuilder.java:189-198 | readBytes stays within the data and the content limit; any failure is an IOException |
| Payloads.ReadString | common/PayloadBuilder.java:178-187 | the method reads what ReadStringAt specifies |
| Payloads.ReadBytes | common/PayloadBuilder.java:189-198 | the method reads what ReadBytesAt specifies |
| Payloads.ParsePutFilePayload | common/PayloadBuilder.java:110-117 | parsed content is within the content limit; every failure is an IOException |
| Payloads.ParseLockReqPayload | common/PayloadBuilder.java:126-134 | every failure is an IOException |
| Payloads.ParseUnlockPayload | common/PayloadBuilder.java:146-149 | parseUnlock reads exactly as parseLockReq |
| Payloads.ParseStringPayload | common/PayloadBuilder.java:158-161 | every failure is an IOException |
| Payloads.ReadStringAtField | common/PayloadBuilder.java:167-187 | a field written by writeString is read back as its string, and consumed exactly |
| Payloads.ReadBytesAtField | common/PayloadBuilder.java:173-198 | a field written by writeBytes is read back as its bytes, and consumed exactly |
| Payloads.PutFileRoundTrip | common/PayloadBuilder.java:36-44 | parsePutFile of buildPutFile gives back the path and content, whatever follows |
| Payloads.LockReqRoundTrip | common/PayloadBuilder.java:57-65 | parseLockReq of buildLockReq gives back the path and mode, whatever follows |
| Payloads.StringRoundTrip | common/PayloadBuilder.java:90-97 | parseString of buildString gives back the text, whatever follows |
| Payloads.BadLengthRejected | common/PayloadBuilder.java:178-198 | a negative or over-limit length prefix is an IOException |
| Payloads.OverlongStringNotParsed | common/PayloadBuilder.java:178-187 | a string whose UTF-8 bytes exceed 10 000 can be built but never parsed: each parser refuses it |
| Payloads.PutFileTruncated | common/PayloadBuilder.java:110-117 | any strict prefix of a PUT_FILE payload is EOFException |
| Payloads.LockReqTruncated | common/PayloadBuilder.java:126-134 | any strict prefix of a LOCK_REQ payload is EOFException |
| Payloads.StringTruncated | common/PayloadBuilder.java:158-161 | any strict prefix of a string payload is EOFException |
| Payloads.ReadTruncatedField | common/PayloadBuilder.java:178-198 | a field the data cuts short is EOFException at the end of the data |
| LockInfo.FileLockInfo.constructor | server/FileLockInfo.java:17-23 | a new record has no readers and no writer |
| LockInfo.FileLockInfo.CanRead | server/FileLockInfo.java:33-35 | reading is allowed exactly when there is no writer |
| LockInfo.FileLockInfo.CanWrite | server/FileLockInfo.java:45-47 | writing is allowed exactly when there are no readers and no writer |
| LockInfo.FileLockInfo.AcquireRead | server/FileLockInfo.java:56-58 | one more reader, writer unchanged |
| LockInfo.FileLockInfo.AcquireWrite | server/FileLockInfo.java:67-69 | writer set, readers unchanged |
| LockInfo.FileLockInfo.ReleaseRead | server/FileLockInfo.java:78-82 | one reader fewer, never below zero |
| LockInfo.FileLockInfo.ReleaseWrite | server/FileLockInfo.java:90-92 | writer cleared, readers unchanged |
| LockInfo.ApplyKeepsExclusive | server/FileLockInfo.java:33-92 | a guarded acquire or any release keeps "no writer beside a reader, at most one writer" |
| LockInfo.ApplyAllKeepsExclusive | server/FileLockInfo.java:33-92 | any run of guarded acquires and releases keeps exclusivity |
| LockInfo.TryOutcome | server/FileLockInfo.java:33-69 | a guarded acquire changes the record exactly when canRead/canWrite allows it; whoever may write may read |
| Locks.LockSpec | server/LockManager.java:45-71 | after lock the path has a record in the table |
| Locks.LockManager.constructor | server/LockManager.java:23-31 | the table starts empty |
| Locks.LockManager.Entry | server/LockManager.java:46-50 | the path's record, created fresh when missing, other entries unchanged |
| Locks.LockManager.TryAcquire | server/LockManager.java:52-68 | granted exactly when the record allows it, and then the record is acquired |
| Locks.LockManager.Lock | server/LockManager.java:45-71 | result and new table are LockSpec of the old table |
| Locks.LockManager.Release | server/LockManager.java:83-99 | the read or write hold is released according to the mode |
| Locks.LockManager.Unlock | server/LockManager.java:83-99 | the new table is UnlockSpec of the old table |
| Locks.LockTouchesOnlyPath | server/LockManager.java:45-71 | lock changes no other path's record |
| Locks.UnlockTouchesOnlyPath | server/LockManager.java:83-99 | unlock changes no other path's record |
| Locks.LockRead | server/LockManager.java:52-58 | "ro" is granted exactly when there is no writer, and then adds one reader |
| Locks.LockWrite | server/LockManager.java:59-68 | "wo"/"rw" is granted exactly when the record is free, and then sets the writer |
| Locks.LockUnknownMode | server/LockManager.java:69-70 | an unknown mode is IllegalArgumentException after the record was created |
| Locks.UnlockEffect | server/LockManager.java:83-99 | unlock of an unknown path does nothing; otherwise the right hold is released and an emptied record removed |
| Locks.LockKeepsExclusive | server/LockManager.java:45-71 | lock keeps every record exclusive |
| Locks.UnlockKeepsExclusive | server/LockManager.java:83-99 | unlock keeps every record exclusive |
| Locks.NoEmptyKept | server/LockManager.java:45-99 | no empty record is left behind, except the one an unknown mode creates |
| Paths.ParseFormat | server/FileManager.java:48-56 | a path without NUL parses back from its own string |
| Paths.ResolveLaws | server/FileManager.java:48-56 | resolving is associative, and resolving the empty path changes nothing |
| Paths.NormalizeIsNormal | server/FileManager.java:48-56 | normalize leaves no "." and no ".." after a name |
| Paths.NormalizeIdempotent | server/FileManager.java:48-56 | normalizing twice is normalizing once |
| Paths.StartsWithNormal | server/FileManager.java:51-53 | a prefix of a normal path is normal |
| Paths.ResolveUnder | server/FileManager.java:48-56 | an accepted path is normal and under the root; a NUL is IllegalArgumentException and a climb out is IOException |
| Paths.ResolveUnderSound | server/FileManager.java:48-56 | an accepted path is the root's names followed by plain names |
| Paths.ResolveUnderPlain | server/FileManager.java:48-56 | under a plain root every relative path without ".." is accepted, with the "." dropped |
| Paths.DotDotCancels | server/FileManager.java:48-56 | "a/../b" resolves to the root's "b" |
| Paths.ClimbOutRejected | server/FileManager.java:51-53 | ".." is refused with an IOException |
| Paths.NonNormalRootRejectsAll | server/FileManager.java:28-33 | a root that is not normal accepts no path |
| Stores.LastModifiedIn | server/FileManager.java:65-71 | the time of the file, -1 when it is missing, or the resolution error |
| Stores.ReadFileIn | server/FileManager.java:85-91 | the whole content of a file under the root; FileNotFoundException when it is missing |
| Stores.WriteFileIn | server/FileManager.java:106-112 | the write succeeds exactly when the path resolves, and a refused write changes nothing |
| Stores.ReadAfterWrite | server/FileManager.java:85-112 | reading through any string that resolves to the written file gives the data written |
| Stores.WriteOnlyThere | server/FileManager.java:106-112 | no other file changes |
| Stores.WriteKeepsValid | server/FileManager.java:106-112 | a write keeps every file within Java's array size |
| ServerFiles.FileManager.constructor | server/FileManager.java:28-33 | the root and the files given |
| ServerFiles.FileManager.ResolvePath | server/FileManager.java:48-56 | an accepted path is normal and under the root |
| ServerFiles.FileManager.WriteFile | server/FileManager.java:106-112 | the files become what WriteFileIn gives |
| ServerHandler.OnPutFile | server/ClientHandler.java:172-187 | handling PUT_FILE keeps every stored file within Java's array size |
| ServerHandler.Handle | server/ClientHandler.java:69-89 | every reply fits a Java array, and every stored file stays within Java's array size |
| ServerHandler.TurnAt | server/ClientHandler.java:55-103 | a turn that does not end the loop consumes at least one byte and stays within the data |
| ServerHandler.ServeTurn | server/ClientHandler.java:55-103 | a session is its first turn's reply followed by the rest of the session |
| ServerHandler.LongToBytes | server/ClientHandler.java:211-218 | the loop fills the eight big-endian bytes of the value |
| ServerHandler.LongToBytesLayout | server/ClientHandler.java:211-218 | byte i of the result is (v >> 8(7-i)) & 0xff |
| ServerHandler.ClientHandler.HandleLockReq | server/ClientHandler.java:113-131 | the reply sent and the new lock table are OnLockReq's |
| ServerHandler.ClientHandler.HandleGetMeta | server/ClientHandler.java:137-148 | the reply sent is OnGetMeta's |
| ServerHandler.ClientHandler.HandleGetFile | server/ClientHandler.java:154-166 | the reply sent is OnGetFile's |
| ServerHandler.ClientHandler.HandlePutFile | server/ClientHandler.java:172-187 | the reply sent and the new files are OnPutFile's |
| ServerHandler.ClientHandler.HandleUnlock | server/ClientHandler.java:193-201 | the reply sent and the new lock table are OnUnlock's |
| ServerHandler.ClientHandler.Dispatch | server/ClientHandler.java:69-89 | the switch does what Handle specifies |
| ServerHandler.ClientHandler.Exchange | server/ClientHandler.java:63-90 | one receive and dispatch does what TurnAt specifies |
| ServerHandler.ClientHandler.Loop | server/ClientHandler.java:62-91 | the loop sends, changes and ends as Serve specifies |
| ServerHandler.ClientHandler.Run | server/ClientHandler.java:55-103 | run does what Serve specifies and leaves the socket closed |
| ServerProperties.LockReqReply | server/ClientHandler.java:113-131 | LOCK_REQ replies RES_OK and leaves the table lock makes; an unknown mode escapes as IllegalArgumentException |
| ServerProperties.RefusedWriterToldOk | server/ClientHandler.java:113-131 | a second writer is refused by lock yet told RES_OK |
| ServerProperties.GetMetaReply | server/ClientHandler.java:137-148 | GET_META replies META_RES with the eight bytes of the time, -1 for a missing file |
| ServerProperties.GetFileReply | server/ClientHandler.java:154-166 | GET_FILE replies FILE_RES with the whole content, RES_FAIL when it cannot be read |
| ServerProperties.PutFileReply | server/ClientHandler.java:172-187 | PUT_FILE never changes the lock table; it replies RES_OK when the write succeeds and RES_FAIL otherwise |
| ServerProperties.UnlockReply | server/ClientHandler.java:193-201 | UNLOCK replies RES_OK with the table unlock leaves |
| ServerProperties.ReplyCommandRefused | server/ClientHandler.java:85-88 | a reply command received as a request gets RES_FAIL and changes nothing |
| ServerProperties.ParseFailureEscapes | server/ClientHandler.java:91-96 | an unparsable payload outside PUT_FILE ends the connection with no reply and no change |
| ServerProperties.HandleKeepsExclusive | server/ClientHandler.java:69-89 | every handler keeps every lock record exclusive |
| ServerProperties.HandleTouches | server/ClientHandler.java:69-89 | only LOCK_REQ and UNLOCK change locks, and only PUT_FILE changes files |
| ServerProperties.TurnOnFrame | server/ClientHandler.java:63-90 | a frame the client sent is consumed whole and handled as its packet |
| ServerProperties.ServeAtEnd | server/ClientHandler.java:91-103 | a connection with nothing left to read ends at once with EOF |
| ServerProperties.ServeKeepsExclusive | server/ClientHandler.java:55-103 | a whole session keeps every lock record exclusive |
| ServerProperties.UploadThenDownload | server/ClientHandler.java:154-187 | PUT_FILE then GET_FILE of a path serves the content uploaded |
| NetClient.Exchange | client/NetworkClient.java:75-85 | without an open socket nothing is sent and the call fails; otherwise exactly the request frame is sent |
| NetClient.BytesToLong | client/NetworkClient.java:189-193 | the first eight bytes as a big-endian long; fewer is BufferUnderflowException |
| NetClient.ExpectOk | client/NetworkClient.java:94-105 | success exactly on RES_OK; anything else is an IOException |
| NetClient.MetaOutcome | client/NetworkClient.java:114-133 | the time from META_RES, -1 from RES_FAIL, an IOException otherwise |
| NetClient.FileOutcome | client/NetworkClient.java:142-159 | the payload of FILE_RES; FileNotFoundException from RES_FAIL; IOException otherwise |
| NetClient.NetworkClient.constructor | client/NetworkClient.java:25 | a new client has no socket and is not connected |
| NetClient.NetworkClient.Connect | client/NetworkClient.java:37-39 | after connect the client is connected |
| NetClient.NetworkClient.Disconnect | client/NetworkClient.java:46-50 | after disconnect the client is not connected |
| NetClient.NetworkClient.Call | client/NetworkClient.java:75-85 | one send and one receive, as Exchange specifies |
| NetClient.NetworkClient.RequestLock | client/NetworkClient.java:75-85 | result and link as RequestLockAt specifies |
| NetClient.NetworkClient.RequestUnlock | client/NetworkClient.java:94-105 | result and link as RequestUnlockAt specifies |
| NetClient.NetworkClient.GetMetadata | client/NetworkClient.java:114-133 | result and link as GetMetadataAt specifies |
| NetClient.NetworkClient.DownloadFile | client/NetworkClient.java:142-159 | result and link as DownloadFileAt specifies |
| NetClient.NetworkClient.UploadFile | client/NetworkClient.java:168-180 | result and link as UploadFileAt specifies |
| NetClient.BytesToLongOfLongToBytes | client/NetworkClient.java:189-193 | the client reads the server's longToBytes back as the same long |
| NetClient.BytesToLongPrefix | client/NetworkClient.java:189-193 | bytes after the first eight do not matter |
| NetClient.ExchangeOneReply | client/NetworkClient.java:75-85 | a request sends its one frame and consumes exactly one whole reply frame |
| NetClient.RequestLockGranted | client/NetworkClient.java:75-85 | requestLock is true exactly when the reply is RES_OK |
| ClientCache.CacheLastModified | client/ClientCacheManager.java:38-48 | the cached file's time; -1 when it is missing or outside the cache; a NUL escapes as IllegalArgumentException |
| ClientCache.OpenFileIn | client/ClientCacheManager.java:99-123 | an opened file exists under the cache; a failed open changes nothing |
| ClientCache.DeleteIn | client/ClientCacheManager.java:129-136 | delete only removes files; only a NUL escapes, and then nothing changes |
| ClientCache.Zeros | client/DFSFileHandle.java:90 | n zero bytes: the gap a write past the end of the file leaves |
| ClientCache.ReadAt | client/DFSFileHandle.java:56-76 | -1 at or past the end for a non-empty buffer; otherwise the next min(n, remaining) bytes |
| ClientCache.ClientCacheManager.constructor | client/ClientCacheManager.java:25-30 | the cache directory is made absolute against the working directory |
| ClientCache.ClientCacheManager.ResolvePath | client/ClientCacheManager.java:143-149 | an accepted path is normal and under the cache directory |
| ClientCache.ClientCacheManager.UpdateCache | client/ClientCacheManager.java:60-68 | the files become what WriteFileIn gives |
| ClientCache.ClientCacheManager.OpenFile | client/ClientCacheManager.java:99-123 | the files and the file opened are what OpenFileIn gives; the file starts at offset 0, writable unless the mode is "ro" |
| ClientCache.ClientCacheManager.DeleteCache | client/ClientCacheManager.java:129-136 | the files become what DeleteIn gives |
| ClientCache.RandomAccessFile.Read | client/DFSFileHandle.java:56-76 | read is ReadAt at the pointer, which moves past the bytes read; a non-empty read is an IOException once closed, while an empty one gives no bytes whatever the state |
| ClientCache.RandomAccessFile.Write | client/DFSFileHandle.java:84-92 | non-empty data overwrites at the pointer and moves it, and is refused once closed or read-only; empty data always succeeds and changes neither the file, its time nor the pointer |
| ClientCache.RandomAccessFile.Seek | client/DFSFileHandle.java:100-102 | the pointer becomes pos; a negative pos or a closed file is an IOException |
| ClientCache.RandomAccessFile.Close | client/DFSFileHandle.java:118-123 | the file ends closed; an error is reported only on the first close |
| ClientCache.OverwriteLayout | client/DFSFileHandle.java:84-92 | a write keeps the bytes before it and after it, fills any gap with zeros, and grows the file only as far as it reaches |
| ClientCache.ReadBackWrite | client/DFSFileHandle.java:56-92 | what is written at an offset is read back from it |
| ClientCache.UpdateThenRead | client/ClientCacheManager.java:60-86 | after updateCache the file holds exactly the data and other files are untouched |
| ClientCache.OpenFileEffect | client/ClientCacheManager.java:99-123 | a missing file is FileNotFoundException in "ro" and is created empty otherwise; an existing file is unchanged |
| ClientCache.DeleteRemoves | client/ClientCacheManager.java:129-136 | the file is gone and every other file remains |
| ClientCache.CacheContained | client/ClientCacheManager.java:143-149 | every accepted path lies under the absolute cache directory; ".." is refused |
| FileHandles.Rethrown | client/DFSFileHandle.java:136-146 | an IOException is rethrown as an IOException; any other exception passes through |
| FileHandles.UploadStep | client/DFSFileHandle.java:125-146 | only a dirty handle in "rw" or "wo" sends anything |
| FileHandles.DFSFileHandle.constructor | client/DFSFileHandle.java:40-47 | a new handle is clean |
| FileHandles.DFSFileHandle.Read | client/DFSFileHandle.java:56-76 | refused in "wo"; a negative length is NegativeArraySizeException; length 0 gives an empty array even after close; otherwise the file's read |
| FileHandles.DFSFileHandle.Write | client/DFSFileHandle.java:84-92 | refused in "ro"; otherwise the file's write, and the handle is marked dirty when it succeeds, which empty data always does without changing the file |
| FileHandles.DFSFileHandle.Seek | client/DFSFileHandle.java:100-102 | the file's seek |
| FileHandles.DFSFileHandle.Close | client/DFSFileHandle.java:117-148 | close does what CloseAt specifies |
| FileHandles.CleanCloseOnlyUnlocks | client/DFSFileHandle.java:117-148 | a clean or read-only handle sends only UNLOCK |
| FileHandles.DirtyCloseUploadsFirst | client/DFSFileHandle.java:125-148 | a dirty writable handle sends PUT_FILE with the whole cached content, then UNLOCK |
| FileHandles.CloseFailureSendsNothing | client/DFSFileHandle.java:118-123 | when the local close fails, nothing is sent |
| FileHandles.CloseEndsWithUnlock | client/DFSFileHandle.java:117-148 | a successful close's last frame is UNLOCK |
| DfsClient.DFSClient.constructor | client/DFSClient.java:25-28 | the cache and the network client given |
| DfsClient.DFSClient.OpenLocked | client/DFSClient.java:90-133 | the try block does what OpenBody specifies |
| DfsClient.DFSClient.Open | client/DFSClient.java:76-143 | open does what OpenAt specifies |
| DfsClient.NeedDownloadIff | client/DFSClient.java:99-118 | download exactly when the server has the file and the cache lacks it or is older |
| DfsClient.OpenNotConnected | client/DFSClient.java:77-79 | a client that is not connected sends nothing and changes nothing |
| DfsClient.OpenLockRefused | client/DFSClient.java:85-88 | a refused lock is an IOException after LOCK_REQ alone, with the cache untouched |
| DfsClient.OpenFailureUnlocks | client/DFSClient.java:134-142 | an IOException after the lock sends exactly one UNLOCK, and the original error is rethrown |
| DfsClient.OpenOtherFailureKeepsLock | client/DFSClient.java:134-142 | an exception that is not an IOException escapes without UNLOCK |
| DfsClient.OpenBodyKeepsSocket | client/DFSClient.java:90-133 | the try block leaves the socket as it found it |
| DfsClient.OpenAtOk | client/DFSClient.java:76-133 | a successful open got the lock, and the rest is the try block's work |
| DfsClient.OpenBodyOk | client/DFSClient.java:90-133 | GET_META, then GET_FILE exactly when a download is needed; downloaded bytes go into the cache |
| DfsClient.OpenSucceeds | client/DFSClient.java:76-143 | a successful open sends LOCK_REQ, GET_META and, only for a stale cache, GET_FILE, in that order |
| DfsClient.OpenBodyCache | client/DFSClient.java:90-133 | the cache the try block leaves behind |
| DfsClient.OpenCacheContent | client/DFSClient.java:76-143 | after open the cached file holds the server's bytes when downloaded, and otherwise what it held |
| RwLocks.GrantRead | LockManager.java:12-14 | a read hold is granted unless another thread writes |
| RwLocks.GrantWrite | LockManager.java:15-17 | the write hold is granted to the writer again, or when nobody holds the lock |
| RwLocks.DropRead | LockManager.java:18-20 | one read hold of the thread goes; without one it is IllegalMonitorStateException |
| RwLocks.DropWrite | LockManager.java:21-23 | one write hold goes; a thread that is not the writer gets IllegalMonitorStateException |
| RwLocks.LockManager.LockFor | LockManager.java:7-9 | the path's lock, created when missing |
| RwLocks.LockManager.AcquireRead | LockManager.java:12-14 | granted and the table updated as GrantRead says; false when the thread would wait |
| RwLocks.LockManager.AcquireWrite | LockManager.java:15-17 | granted and the table updated as GrantWrite says; false when the thread would wait |
| RwLocks.LockManager.ReleaseRead | LockManager.java:18-20 | the table updated as DropRead says |
| RwLocks.LockManager.ReleaseWrite | LockManager.java:21-23 | the table updated as DropWrite says |
| RwLocks.OperationsKeepCoherent | LockManager.java:12-23 | every grant and release keeps "while one thread writes, no other reads" |
| RwLocks.ReleaseUndoesAcquire | LockManager.java:12-23 | releasing a hold just granted restores the lock |
| RwLocks.WriterExcludes | LockManager.java:12-17 | no two threads write at once, and a writer shuts out other readers |
| RwLocks.NoUpgrade | LockManager.java:15-17 | a thread holding only a read hold cannot take the write hold |
| LineText.NewlineFrom | ClientHandler.java:50-59 | the first '\n' at or after the position, or the end of the data |
| LineText.LineAt | ClientHandler.java:50-59 | the bytes before the first '\n', which is consumed; at the end the partial line, or none |
| LineText.ReadLine | ClientHandler.java:50-59 | the loop reads what LineAt specifies |
| LineText.WriteLine | ClientHandler.java:61-64 | the UTF-8 bytes of the string, then '\n' |
| LineText.Wire | ClientHandler.java:61-67 | an empty run of writes puts nothing on the wire |
| LineText.WireAppend | ClientHandler.java:61-67 | the bytes of two runs of writes are the bytes of the first, then the second |
| LineText.LineOutput.WriteLine | ClientHandler.java:61-64 | one more line written |
| LineText.ReadWrittenLine | ClientHandler.java:50-64 | a written line without '\n' is read back whole |
| LineText.EncodeAvoids | ClientHandler.java:50-64 | a string without '\n' encodes without the byte 10 |
| LineText.TrimLeft | ClientHandler.java:73 | the leading characters up to U+0020 are removed, and only those |
| LineText.TrimRight | ClientHandler.java:73 | the trailing characters up to U+0020 are removed, and only those |
| LineText.TrimPadded | ClientHandler.java:73 | padding around a string is removed exactly |
| LineText.ToLower | ClientHandler.java:73 | each character is lower-cased in place, so the length is kept |
| LineText.ParseInt | ClientHandler.java:115 | a parsed value fits an int; the empty string and every failure are NumberFormatException |
| LineText.DecimalValue | DFSClient.java:92 | Integer.toString(n) is digits whose value is n |
| LineText.ParseDecimal | ClientHandler.java:115 | parseInt of Integer.toString(n) is n |
| LineText.TrimDecimal | ClientHandler.java:115 | trim leaves Integer.toString(n) as it is |
| LineText.DecimalAscii | DFSClient.java:92 | Integer.toString(n) is ASCII and has no '\n' |
| LineServer.RepoRootOf | Server.java:14-17 | the repository root is absolute and normal; it fails exactly on a NUL |
| LineServer.SafeResolve | Server.java:19-24 | an accepted path is normal and under the root; a NUL is IllegalArgumentException and a climb out is IOException |
| LineServer.RepoRootPlain | Server.java:14-17 | the repository root holds no "." and no ".." |
| LineServer.SafeResolveLeadingSlash | Server.java:19-24 | one leading '/' is dropped before resolving |
| LineServer.SafeResolveTraversal | Server.java:19-24 | "a/../b" is "b" under the root, while ".." and "/.." are refused |
| LineServer.WritebackLocked | ClientHandler.java:117-132 | WRITEBACK never changes locks or the recorded paths, and the only exception it lets escape is the IllegalArgumentException of a negative length |
| LineServer.OnWriteback | ClientHandler.java:110-133 | reading stays within the data, no lock changes, and only IllegalArgumentException escapes |
| LineServer.OnClose | ClientHandler.java:135-141 | CLOSE never changes a file |
| LineServer.TurnAt | ClientHandler.java:29-37 | a command that does not end the loop consumes at least one byte and stays within the data |
| LineServer.ServeTurn | ClientHandler.java:29-38 | a session is its first command's replies followed by the rest |
| LineServer.SendErr | ClientHandler.java:67 | ERR, then the message line |
| LineServer.ClientHandler.TakeLock | ClientHandler.java:83-89 | the lock and the recorded path as OpenLock specifies |
| LineServer.ClientHandler.HandleOpen | ClientHandler.java:69-108 | handleOpen does what OnOpen specifies |
| LineServer.ClientHandler.HandleWriteback | ClientHandler.java:110-133 | handleWriteback does what OnWriteback specifies |
| LineServer.ClientHandler.HandleClose | ClientHandler.java:135-141 | handleClose does what OnClose specifies |
| LineServer.ClientHandler.Step | ClientHandler.java:30-37 | one command as TurnAt specifies |
| LineServer.ClientHandler.Loop | ClientHandler.java:29-40 | the loop does what Serve specifies |
| LineServer.ClientHandler.Cleanup | ClientHandler.java:41-47 | one read release per recorded read path, then one write release per recorded write path; both sets are emptied |
| LineServer.ClientHandler.Run | ClientHandler.java:27-48 | the session as Serve specifies; when it ended otherwise than blocked, the finally block's cleanup gives back every recorded hold; a thread blocked in `lock` never reaches the finally block and keeps every hold it took |
| LineServer.OpenLockHeld | ClientHandler.java:82-89 | after OPEN the recorded path is held by this thread |
| LineServer.CloseHeld | ClientHandler.java:135-141 | CLOSE keeps the recorded paths held, and neither release throws |
| LineServer.OpenHeld | ClientHandler.java:69-108 | OPEN keeps the recorded paths held and throws no IllegalMonitorStateException |
| LineServer.TurnHeld | ClientHandler.java:29-37 | every command keeps the recorded paths held and throws no IllegalMonitorStateException |
| LineServer.SessionHeld | ClientHandler.java:27-48 | a whole session keeps the recorded paths held and never ends in IllegalMonitorStateException |
| LineServer.OpenRefusals | ClientHandler.java:72-80 | a bad mode is "MODE" and a path outside the root is the traversal error; neither takes a lock |
| LineServer.OpenGrantedReply | ClientHandler.java:83-104 | a granted OPEN records and holds the lock, then sends the file, or "ENOENT" in "ro" for a missing file with the lock kept, or an empty file otherwise |
| LineServer.UnknownCommandRefused | ClientHandler.java:36 | any other command line gets ERR and changes nothing |
| LineServer.OpenWaitsForWriter | ClientHandler.java:83-89 | OPEN waits while another thread writes the path |
| LineServer.OpenWriteWaitsForReaders | ClientHandler.java:86-89 | OPEN for writing waits while any thread reads, the calling one included |
| LineServer.RepeatedOpenKeepsReadHold | ClientHandler.java:83-85 | a second OPEN "ro" of a path takes a second read hold that neither CLOSE nor the cleanup gives back, so other writers keep waiting |
| LineServer.RepeatedOpenKeepsWriteHold | ClientHandler.java:86-88 | a second OPEN for writing re-enters the write lock; CLOSE gives one hold back and the cleanup none, so the path stays write-locked against every other connection |
| LineServer.OpenThenCleanup | ClientHandler.java:41-47 | a connection that opened one path and ended leaves the lock as it found it |
| LineServer.TwoLinesWritten | ClientHandler.java:69-72 | the two fields the client writes are the two fields the handler reads |
| LineServer.OpenRequestRead | ClientHandler.java:69-73 | an OPEN request from the client is handled as its mode and path |
| LineServer.WritebackRequestRead | ClientHandler.java:110-115 | a WRITEBACK request from the client is handled as its path and length |
| LineServer.WritebackStoresBody | ClientHandler.java:117-129 | a write-locked WRITEBACK with its whole body stores exactly that body and replies OK |
| LineServer.WritebackShortBody | ClientHandler.java:122-129 | a body cut short is stored as the bytes that arrived, and acknowledged |
| LineServer.WritebackNeedsWriteLock | ClientHandler.java:117 | without a write lock WRITEBACK is refused and its body is left unread |
| LineFiles.FileHandler.constructor | FileHandler.java:10-15 | the path, mode and initial bytes; not dirty |
| LineFiles.FileHandler.ClearDirty | FileHandler.java:20 | not dirty, content unchanged |
| LineFiles.FileHandler.WriteString | FileHandler.java:25-30 | refused in "ro"; otherwise the content is the string's bytes and the handler is dirty |
| LineFiles.FileHandler.AppendString | FileHandler.java:32-36 | refused in "ro"; otherwise the string's bytes are appended and the handler is dirty |
| LineFiles.ReadAfterWrite | FileHandler.java:23-30 | readString after writeString gives the string |
| LineFiles.ReadAfterWriteAppend | FileHandler.java:23-36 | readString after writeString(s) and appendString(t) gives s + t |
| LineFiles.ReadOnlyUnchanged | FileHandler.java:18-36 | a read-only handler refuses both writes and keeps its content and its dirty flag unchanged |
| LineClient.ColonIndex | DFSClient.java:15-20 | the first ':', or the length when there is none |
| LineClient.ParseServer | DFSClient.java:15-20 | split at the first ':'; no ':' is IllegalArgumentException |
| LineClient.ParseServerJoin | DFSClient.java:15-20 | "host:port" splits back into host and port when host has no ':' |
| LineClient.OpenAt | DFSClient.java:38-68 | open succeeds exactly when no file was open and a file then is; a second open is IllegalStateException with nothing changed |
| LineClient.ReadAt | DFSClient.java:70-73 | read fails exactly when no file is open, with IllegalStateException |
| LineClient.EditAt | DFSClient.java:75-83 | write/append succeed exactly on an open file not in "ro", which then holds the new content and is dirty |
| LineClient.CloseSend | DFSClient.java:104-115 | CLOSE is sent; only OK clears the file and closes the socket |
| LineClient.WritebackAt | DFSClient.java:88-101 | WRITEBACK with the whole content is sent; only OK clears the dirty flag |
| LineClient.CloseAt | DFSClient.java:85-116 | without an open file, IllegalStateException; success leaves no file and no socket; failure keeps the file's content |
| LineClient.DFSClient.constructor | DFSClient.java:13 | no file and no socket |
| LineClient.DFSClient.ReadLine | DFSClient.java:22-31 | reads what the line reader specifies |
| LineClient.DFSClient.Open | DFSClient.java:38-68 | open does what OpenAt specifies |
| LineClient.DFSClient.Read | DFSClient.java:70-73 | read is ReadAt |
| LineClient.DFSClient.Write | DFSClient.java:75-78 | write does what WriteAt specifies |
| LineClient.DFSClient.Append | DFSClient.java:80-83 | append does what AppendAt specifies |
| LineClient.DFSClient.Close | DFSClient.java:85-116 | close does what CloseAt specifies |
| LineClient.ReadAfterWrite | DFSClient.java:70-78 | read after write gives the string written |
| LineClient.ReadAfterAppend | DFSClient.java:70-83 | append after content reading as t reads as t + s |
| LineClient.CloseSends | DFSClient.java:85-116 | close sends WRITEBACK exactly when the file changed and is not "ro", and CLOSE only when there was no WRITEBACK or it was acknowledged |
| LineClient.WriteThenCloseSendsContent | DFSClient.java:75-101 | after a write, close sends the new content |
| LineClient.AckOk | DFSClient.java:95-101 | a status line "OK" is an acknowledgement |
| LineClient.AckErr | DFSClient.java:95-99 | "ERR" and a message line is an IOException, and both lines are consumed |
| LineClient.OpenConnects | DFSClient.java:38-55 | a valid server name and mode sends OPEN, the lower-cased mode and the path |
| LineClient.OpenBadModeLeavesSocket | DFSClient.java:41-48 | a bad mode is refused only after the socket was opened, and the socket is left open |
| LineClient.OpenReceives | DFSClient.java:55-67 | OK, a length and that many bytes open the file with exactly those bytes |
| LineClient.OpenRefused | DFSClient.java:56-60 | ERR refuses the open and closes the socket |
| LineClient.CloseAcknowledged | DFSClient.java:85-116 | a close the server acknowledges ends with no file and no socket |
| LineClient.WritebackAcked | DFSClient.java:88-101 | an acknowledged WRITEBACK leaves the file clean |

## Left out

- Sockets, `ServerSocket.accept`, threads and the server's accept loops (`server/FileServer.java`, `Server.start`) are left out. So are the interactive shells (`client/ClientMain.java`, `DFSShell.java`). A connection is modelled as the bytes each side sends.
- Only a single thread is modelled.
  - In the line version, an acquire that would wait is reported as not granted, and the connection stops with `Blocked`. The thread is then taken to wait for ever: its finally block does not run, and every hold it took stays held. Whether it is later woken is not modelled, nor are the deadlocks between connections that this allows.
  - The fairness of `ReentrantReadWriteLock` is not modelled.
  - `synchronized` is not modelled.
- Operating-system file times are the `now` parameter of each write. The server loop takes them from a `clock` function of the turn number.
- The following file-system details are left out:
  - `Files.createDirectories`;
  - the temporary file and `ATOMIC_MOVE` of WRITEBACK, modelled as one replacement of the file;
  - I/O errors of the file system other than a missing file;
  - directories: a store maps file paths to files, and holds no directories.
  - `RandomAccessFile.close` failing, which is the `fails` parameter.
- Host names and ports: `connect` is a state change, and whether a host is reachable is a parameter.
- UTF-8 decoding of malformed input replaces each bad byte with U+FFFD. This simplifies the JDK's replacement rule. Only bytes produced by the encoder are proved to decode back.
- A Dafny `string` holds only Unicode scalar values, so it cannot hold an unpaired surrogate. The model therefore does not cover `getBytes(UTF_8)` turning a lone surrogate into '?'.
- Logging and the text of exception messages are left out; the model keeps only the kind of each exception.
- The line version's second `close()` (`DFSClient.java:127-130`) is left out, because the class does not compile with both declarations.
- LineServer.RepeatedOpenKeepsReadHold: this states the source's behaviour rather than a corrected one. The recorded read paths form a set while the lock counts holds, so a path opened twice "ro" keeps one read hold for ever: CLOSE gives back only one, and the cleanup does not release the other either. Likewise a path opened twice for writing keeps one write hold for ever (LineServer.RepeatedOpenKeepsWriteHold), and no other connection can then read or write it.
- LineText.ParseInt: only the ASCII digits '0'..'9' are accepted. `Integer.parseInt` also accepts every other Unicode decimal digit (fullwidth, Arabic-Indic and so on), which the model refuses as NumberFormatException.
- LockInfo.FileLockInfo.AcquireRead: `readerCount` is an unbounded `nat`. Java's `int` counter wraps to a negative value after 2^31 granted reads; after that `releaseRead` never decrements it and `canWrite` stays false. `LockInfo.LockState` counts readers the same way.
- RwLocks.GrantRead: read and write holds are unbounded counts. `ReentrantReadWriteLock` throws an `Error` once a lock has more than 65535 holds; the same applies to RwLocks.GrantWrite.
- NetClient.PairSendable: this precondition, and NetClient.PathSendable and NetClient.UploadSendable, require a payload that fits a Java array. Only the NetClient request methods require it; a larger payload fails in Java with OutOfMemoryError, which they do not model. The file handle's close checks UploadSendable itself and reports an overflow as OutOfMemory (FileHandles.UploadStep, FileHandles.DFSFileHandle.Close).
- Stores.LastModifiedIn: a path naming a directory, such as "" for the root or "a" after a write of "a/b", is treated as a missing file: the time is -1, where Java returns the directory's time. The same holds for Stores.ReadFileIn and Stores.WriteFileIn: a directory path reads as missing and can be written as a file, where Java fails on both. The line server's OPEN of a directory is affected the same way, and so is the client cache (ClientCache.CacheLastModified).
- FileHandles.UploadStep: only whether a handle uploads is stated. The bytes uploaded are stated by FileHandles.DirtyCloseUploadsFirst.

# A verified model of json-rpc

json-rpc is a remote-procedure-call system: a length-prefixed framing over stream sockets, two servers (one thread per
connection with a bounded pool, and one poll loop with a pool of workers), a client that retries its calls, and a
generator that writes a client stub and a server wrapper from one specification. This project models the parts whose
correctness spans several functions or threads and proves what they promise.

| file | what it models |
|---|---|
| `Bytes`, `Buffers`, `Sockets` | the 4-byte length prefix, the buffer classes, the chunked send and receive loops |
| `Channels` | one poll-server connection: what read, write, send, close and clear do to it, and the class that does it |
| `Polling` | the poll manager: watch, unwatch, poll |
| `PollConnection`, `PollProtocol`, `PollGuarantees`, `PollCounts`, `PollProgress` | the poll server as a step system: clients, loop thread and workers, its invariant, what follows for every run, how many steps it takes, and that calls can return |
| `Proto`, `Retry` | requests and responses as JSON trees; the client's call loops |
| `SockPool`, `SockConnection`, `SockProtocol`, `SockGuarantees`, `SockProgress`, `SockRetry` | the thread-per-connection server with eviction and retry as a step system, its invariant, what follows for every run, which calls can still end, and how they end |
| `SortedMaps`, `Serializers`, `Stubs`, `Scopes`, `Services`, `EndToEnd` | the generator's ordered maps, class serializers, generated bodies, their meaning and their names, dispatch, and a whole call |

Objects that the code updates in place are classes whose methods are proved against a function of their old state.
The same functions are the steps of the two step systems, so that what is proved of every step holds for the classes.
A step system has a `Guard` (when a thread can take a step, and in particular when it would block) and an `Apply`.

## What is proved

* **Poll server.** In every reachable state each connection has its one message in exactly one stage, and the bytes of
  a travelling message, assembled, in flight and not yet written, make up its frame. From that: a read never waits for
  a worker, a close or a response never waits for the send mutex, no job ever outlives its channel, no event of a batch
  is stale, an accepted descriptor never replaces a live channel, and a descriptor is watched for writing exactly when
  its response has bytes left, but for the moments in which a thread is about to watch or unwatch it.
  Over a whole run the i-th return of a client is its i-th request with the i-th response. Every step leaves a call
  alone or brings it strictly closer to returning; a response takes exactly its number of chunks in steps, and the
  steps that touch a connection are bounded by the bytes of its messages, however everything interleaves. From every
  reachable state a call in progress has a run in which it returns, and so has the next call of a client that has not
  hung up.
* **Thread-per-connection server.** For any interleaving of accepts, evictions, handler runs, reconnects and retries,
  a call that returned ran its handler exactly once and returned what that run computed; a call that raised a server
  error never ran it; no call ever runs twice; replies on a connection are the responses in order and at most one
  error, after which nothing runs. In every reachable state it is settled which idle clients can still have a call
  return, with the run that does it, and which never will.
* **Generated code.** For every specification with distinct protocol constants whose names resolve, the generated stub
  and wrapper together call the service's method once with each argument bound to the parameter it was named for, and
  the result comes back. Of functions with different names whose hashes are equal only the last is reached; two with the
  same name in upper case repeat an enumerator (include/stubgen/writer.hpp:78-83), which does not compile.

## Where the code falls short

These are proved too, each with the exact condition.

* `NextCallEnds`, `StuckForever`: a client on a connection with nothing to read whose thread is over, or was evicted at
  its loop guard (src/json-rpc/sockserver.cpp:78), waits for ever in its next call: it never gets a reply, and read and
  write failures never lead to a reconnect (include/json-rpc/client/client.hpp:97-101). So does one that needs a new
  connection from a blocked accept loop. In every other case the next call can return.
* `MidMessageBlocks`, `BlockedForever`: an eviction that finds a thread between the header of a message and its end, the
  rest of which is then lost, leaves that thread reading 0 for ever (src/json-rpc/sockserver.cpp:131-140), and the accept
  loop joining it for ever (include/json-rpc/server/sockserver.hpp:102-104): nobody is accepted any more.
* `EvictionIsAnnounced`: that an evicted client is told SOCKET_CLOSED fails exactly when the eviction finds the thread at
  its loop guard, or the thread has refused a request before the eviction or refuses the one it then has.
* `RaisedIsLast`: a refusal alone is enough. The thread ends after its error and leaves the socket open
  (src/json-rpc/sockserver.cpp:95-106), so after a call that raised a server error no call of that client ever ends.
* `ExactlyOnce`: a call that raises "PRC call failed" has nevertheless been executed once, since the failure count is
  looked at only after a successful attempt (include/json-rpc/client/client.hpp:103-105).
* `CoalescedFrames`: a receive loop that is handed the next frame in the segment that ends a message gets the message if
  and only if the bytes of it in that segment are a multiple of 1024; otherwise it never stops, because it compares for
  equality.
* `SplitHeader`: a frame whose first segment does not hold its whole header is rejected.
* `StubCompiles`, `WrapperCompiles`, `ConstantIsNoType`: a stub with a parameter called `sout`, `call` or `OutSerializer`
  (or `__r`, with a return value) does not compile, nor does a wrapper whose method is called `req` (or `sin`, with
  parameters, or `__r`, with a return value), nor a function with a parameter of a class called `Result` or like another
  constant of the protocol header (include/json-rpc/proto.hpp:10-25). The lemmas give the whole condition under which
  each name in a body is found where the generator meant it, relative to the names that the included headers declare.
* `ResponseRoundTrip`: the error code BAD_RESPONSE is not understood by the client.

## Assumptions

* A JSON text is its tree: JConer's `loads` and `dumps` are taken to be inverse, its array serializer to append one
  element for a built-in value and to consume the next. JConer and the `common` library are not part of this model.
* Locks, the thread pool and thread joins do what their names say. A response that fits one chunk is sent in one step,
  and the send mutex is released once; the code releases it twice (src/json-rpc/pollserver.cpp:170 and 198).
* A read returns at least 0 bytes, and at least one when bytes have arrived. In the step system of the poll server a
  socket accepts every chunk whole, and what one write put in flight can be read as a whole, so that
  a header arrives in one read.
* The host is little-endian: the length prefix is the memory of an `int`.
* Message contents are byte sequences with explicit lengths, where the code uses C strings
  (src/json-rpc/pollserver.cpp:165 and 218, src/json-rpc/sockclient.cpp:107).
* Clients are synchronous and, with the poll server, hang up only between calls. Reconnecting succeeds in the step
  system of the thread-per-connection server; `Retry` covers its failure.
* A connection thread takes the header of a request and its body in two steps. After an eviction what is still missing
  of a request may arrive or be lost, and so may a request written later.

## Model

| member | source | states |
|---|---|---|
| Bytes.DecodeEncode | include/json-rpc/buffer.hpp:77 | reading back the four bytes of a native int gives the int, negative ones included |
| Bytes.LittleEndian | include/json-rpc/buffer.hpp:77 | the four bytes of an int weigh 1, 256, 65536 and 16777216 in the order they are sent, in two's complement |
| Bytes.FrameParts | include/json-rpc/buffer.hpp:73-80 | a frame is the four bytes of the length and then the message |
| Bytes.ChunksLeast | src/json-rpc/sockserver.cpp:148-155 | the chunk count used throughout is the least number of 1024-byte chunks with room for the bytes |
| Bytes.FramePrefixFree | include/json-rpc/buffer.hpp:73-80 | a stream has at most one way to start with a frame: message and remainder are determined |
| Buffers.RDONBuffer.Wrap | include/json-rpc/buffer.hpp:20-23 | a borrowing read buffer starts with all of its bytes unread |
| Buffers.RDONBuffer.Heavy | include/json-rpc/buffer.hpp:55-60 | the copying buffer owns fresh storage with the same bytes |
| Buffers.RDONBuffer.Sized | include/json-rpc/buffer.hpp:73-80 | the sized buffer's unread bytes are the frame of its message |
| Buffers.RDONBuffer.Read | include/json-rpc/buffer.hpp:27-38 | hands out the next bytes, as many as asked for or left, and leaves the rest of both arrays alone |
| Buffers.RDONBuffer.Reset | include/json-rpc/buffer.hpp:42 | everything is unread again |
| Buffers.WRONBuffer.constructor | include/json-rpc/buffer.hpp:102-108 | a new write buffer is empty |
| Buffers.WRONBuffer.Write | include/json-rpc/buffer.hpp:116-129 | appends exactly the given bytes, whether or not the storage has to grow; growth makes room for 1024 bytes more than the size field, or what is needed, and leaves that field as it was |
| Buffers.WRONBuffer.Reset | include/json-rpc/buffer.hpp:133-136 | empties the buffer within its storage |
| Buffers.WRONBuffer.Replay | include/json-rpc/buffer.hpp:94-142 | after any run of writes and resets, however long, in which the buffer never holds more than an int can count, the content is that of an append-only sequence and the storage covers both size and position |
| Buffers.AfterLastClear | include/json-rpc/buffer.hpp:116-136 | the content is the concatenation of the writes since the last reset, in order |
| Buffers.SizedWRONBuffer.constructor | include/json-rpc/buffer.hpp:149-151 | a new sized buffer is empty and takes as many bytes as it was made for |
| Buffers.SizedWRONBuffer.Write | include/json-rpc/buffer.hpp:153-162 | appends what fits and reports how much that was |
| Sockets.ReadOnce | src/json-rpc/sockserver.cpp:132 | a socket read returns a prefix of what is queued, no longer than asked, and loses nothing |
| Sockets.MoveChunk | src/json-rpc/sockserver.cpp:155-157 | one round of a send loop: the next chunk leaves the buffer and its accepted part is on the wire |
| Sockets.Drain | src/json-rpc/sockserver.cpp:154-168 | a buffer is drained exactly, in the least number of writes, or a prefix of it until the peer stops accepting; a write refused outright is told apart from a short one by the room being a multiple of 1024 |
| Sockets.SendFrame | src/json-rpc/sockserver.cpp:147-169 | what is written is the frame of the message, in the frame length divided by 1024 writes, rounded up; refused and short writes are told apart by the room left |
| Sockets.Receive | src/json-rpc/sockserver.cpp:110-144 | the receive method takes from the socket exactly what the receive function says, closed, bad header and endless loop included |
| Sockets.ClientReceive | src/json-rpc/sockclient.cpp:79-111 | the client's receive turns a missing or bad header into a read failure |
| Sockets.RecvBodyConfined | src/json-rpc/sockserver.cpp:131-140 | however the body is cut, the loop stops at its last byte with all of it |
| Sockets.RecvFrame | src/json-rpc/sockserver.cpp:110-144 | a frame whose first segment holds its header and whose segments end with it is received exactly, and nothing after it is touched |
| Sockets.RecvAll | src/json-rpc/sockserver.cpp:77-80 | repeated receives on a stream of frames return the original messages in order |
| Sockets.RecvBodyShared | src/json-rpc/sockserver.cpp:131-140 | a body cut anywhere whose last bytes share their segment with what follows ends the loop if and only if their number is a multiple of the chunk size |
| Sockets.CoalescedFrames | src/json-rpc/sockserver.cpp:131-140 | when a message ends in the segment the next frame starts in, however it was cut before, it is received, with the rest of that segment left for the next receive, if and only if its bytes in that segment are a multiple of the chunk size; otherwise the loop never stops |
| Sockets.SplitHeader | src/json-rpc/sockserver.cpp:124-127 | a frame cut in any way into segments that end with it is received if and only if its first segment holds the whole header |
| Sockets.RecvReports | src/json-rpc/sockserver.cpp:117-127 | the peer has gone if and only if nothing is there to read; a header is bad if and only if it is shorter than four bytes or announces none |
| Sockets.TruncatedBody | src/json-rpc/sockserver.cpp:131-140 | a body whose end never comes keeps the loop reading for ever |
| Polling.ListsUnique | src/json-rpc/pollserver.cpp:86-94 | an ascending listing without repeats is determined by its descriptors |
| Polling.PollManager.constructor | src/json-rpc/pollserver.cpp:7-10 | nothing is watched and the cached maximum is right |
| Polling.PollManager.Watch | src/json-rpc/pollserver.cpp:17-33 | adds one descriptor to one set and keeps both fd_sets equal to their hash sets and the maximum exact |
| Polling.PollManager.Unwatch | src/json-rpc/pollserver.cpp:35-65 | removes one descriptor from one set and recomputes the exact maximum |
| Polling.PollManager.MaxScan | src/json-rpc/pollserver.cpp:47-60 | the scan over a set, in any order, yields the maximum of the set and its start |
| Polling.PollManager.Poll | src/json-rpc/pollserver.cpp:67-101 | returns at the first select that reports a watched descriptor, with the ascending listings of exactly the watched descriptors it reports |
| WatchRuns.Replay | src/json-rpc/pollserver.cpp:17-65 | after any run of watch and unwatch the manager agrees with two plain sets and its invariant holds |
| Channels.StorePart | src/json-rpc/pollserver.cpp:144-156 | storing the next part of a message loses none of it and is ready exactly at the last byte |
| Channels.Reassembly | src/json-rpc/pollserver.cpp:120-157 | under any fragmentation a channel reports pending on every part but the last, ready on the last, and holds exactly the message |
| Channels.SplitHeaderBreaks | src/json-rpc/pollserver.cpp:126-156 | a frame cut in any way is assembled if and only if its first segment holds four bytes; otherwise the one callback reports broken, the channel turns busy and the frame is lost |
| Channels.ReadReports | src/json-rpc/pollserver.cpp:126-156 | one read reports closed exactly when nothing is there where a header was due, broken exactly when that header is too short or announces nothing, ready exactly when the message is complete |
| Channels.SurplusLost | src/json-rpc/pollserver.cpp:146-156 | bytes that arrive in the chunk behind the end of a message are lost |
| Channels.WriteRunCount | src/json-rpc/pollserver.cpp:159-175 | a response of n bytes is out unaltered after exactly (n + 4) / 1024 write callbacks, rounded up, and the mutex is then free |
| Channels.Channel.constructor | src/json-rpc/pollserver.cpp:103-109 | a new channel is alive, idle and has no buffers |
| Channels.Channel.ReadHeader | src/json-rpc/pollserver.cpp:126-142 | the header read makes the message buffer, or reports closed or broken |
| Channels.Channel.ReadChunk | src/json-rpc/pollserver.cpp:144-156 | the chunk read stores what fits and turns busy when the message is complete |
| Channels.Channel.Read | src/json-rpc/pollserver.cpp:120-157 | status, new state and what stays queued are those of the read step: closed, broken, ready and busy exactly when the header and the bytes say so |
| Channels.Channel.Write | src/json-rpc/pollserver.cpp:159-175 | status, new state and the bytes put on the socket are those of the write step, cut to what the peer takes: the rest of a chunk is lost |
| Channels.Channel.Load | src/json-rpc/pollserver.cpp:189-193 | a new response replaces the last one and takes the mutex |
| Channels.Channel.Send | src/json-rpc/pollserver.cpp:181-200 | the response replaces the last one, its first 1024 bytes go to the socket as far as the peer takes them, and the descriptor is watched exactly when bytes are left; nothing happens on a closed channel |
| Channels.Channel.Close | src/json-rpc/pollserver.cpp:202-207 | the socket is closed, the channel is no longer alive, and nothing else changes |
| Channels.Channel.GetMsg | src/json-rpc/pollserver.cpp:213-220 | the bytes assembled so far |
| Channels.Channel.ClearMsg | src/json-rpc/pollserver.cpp:222-229 | drops the message and ends the busy state |
| PollConnection.OneStage | src/json-rpc/pollserver.cpp:120-229 | a message is never in two stages |
| PollConnection.RacesAreSeen | src/json-rpc/pollserver.cpp:264-279 | a message that becomes ready while the last one still has its job, and a channel deleted under a job, are marked as races, which no connection in order has |
| PollConnection.HeadFails | src/json-rpc/sockclient.cpp:83-90 | the client's header read fails exactly when the header is shorter than four bytes or announces none |
| PollConnection.StartKeeps | src/json-rpc/sockclient.cpp:47-57 | a started call is a travelling request |
| PollConnection.ClientWriteKeeps | src/json-rpc/sockclient.cpp:66-76 | writing a chunk keeps the request's bytes together |
| PollConnection.ClientHeadKeeps | src/json-rpc/sockclient.cpp:83-90 | the client's header read always finds the length of its own response |
| PollConnection.ClientBodyKeeps | src/json-rpc/sockclient.cpp:96-110 | the client never reads past its response and returns exactly it |
| PollConnection.HangupKeeps | src/json-rpc/sockclient.cpp:113-118 | hanging up between calls leaves nothing under way |
| PollConnection.ReadKeeps | src/json-rpc/pollserver.cpp:120-157 | a read callback meets the next part of a request, which it does not truncate, or a client that has hung up |
| PollConnection.AskingRead | src/json-rpc/pollserver.cpp:126-156 | the part read moves from the bytes in flight to the assembled ones |
| PollConnection.CloseKeeps | src/json-rpc/pollserver.cpp:270-279 | a channel is closed only when it holds no message, no job and no mutex |
| PollConnection.WriteKeeps | src/json-rpc/pollserver.cpp:159-175 | a write callback moves response bytes in flight and reports ready exactly when none is left |
| PollConnection.CopyKeeps | src/json-rpc/pollserver.cpp:335 | the worker copies exactly the client's request |
| PollConnection.ClearKeeps | src/json-rpc/pollserver.cpp:336 | clearing frees the channel for the next request |
| PollConnection.RespondKeeps | src/json-rpc/pollserver.cpp:350-356 | sending starts the response of the request in hand and arms a watch exactly when bytes are left |
| PollConnection.ArmedKeeps | src/json-rpc/pollserver.cpp:195-196 | a response still has bytes when its worker comes to watch it |
| PollConnection.ChannelReadIsRead | src/json-rpc/pollserver.cpp:120-157 | the class's read on any segments is one of the read steps of the step system |
| PollConnection.ReadCloser | src/json-rpc/pollserver.cpp:120-157 | a read callback brings its call strictly closer to returning, and takes at most 1024 bytes of a message |
| PollConnection.BodyCloser | src/json-rpc/sockclient.cpp:96-110 | a client's read brings its call strictly closer to returning, and takes at most 1024 bytes |
| PollConnection.WriteCloser | src/json-rpc/pollserver.cpp:159-175 | so does a write callback |
| PollConnection.RespondCloser | src/json-rpc/pollserver.cpp:177-200 | so does sending a response |
| PollProtocol.LoopReadCloses | src/json-rpc/pollserver.cpp:262-279 | a read callback ends in a close exactly when a header was due and what came is too short or announces nothing; then the channel and both watches go, and otherwise all of them stay |
| PollProtocol.LoopIsOneThread | src/json-rpc/pollserver.cpp:249-304 | at any time only one kind of step can be the next of the loop thread: the reads of a batch come before its writes, and an unwatch before the next of either |
| PollProtocol.PutKeeps | src/json-rpc/pollserver.cpp:243-304 | a change to one connection leaves watches, batch and all others in order |
| PollProtocol.ClientKeeps | src/json-rpc/sockclient.cpp:47-111 | client steps keep the invariant |
| PollProtocol.LoopReadKeeps | src/json-rpc/pollserver.cpp:254-279 | reading, and closing when the client is gone, keeps the invariant |
| PollProtocol.DropKeeps | src/json-rpc/pollserver.cpp:270-279 | dropping a channel removes it from both watch sets and the table, and no event of the batch still names it |
| PollProtocol.AcceptKeeps | src/json-rpc/pollserver.cpp:280-290 | an accepted descriptor is not in the table, and accepting keeps the invariant |
| PollProtocol.LoopWriteKeeps | src/json-rpc/pollserver.cpp:293-302 | a write event always finds a response with bytes left, and writing keeps the invariant |
| PollProtocol.UnwatchKeeps | src/json-rpc/pollserver.cpp:298-301 | the late unwatch removes no watch a later response needs |
| PollProtocol.WorkerKeeps | src/json-rpc/pollserver.cpp:332-358 | worker steps keep the invariant |
| PollProtocol.WatchKeeps | src/json-rpc/pollserver.cpp:195-196 | so does the worker's watch call, made after its first write |
| PollProtocol.PollKeeps | src/json-rpc/pollserver.cpp:250-252 | so does taking a new batch |
| PollProtocol.StepKeeps | src/json-rpc/pollserver.cpp:243-358 | every step of every client, the loop thread and every worker keeps the invariant |
| PollGuarantees.ReachableInv | src/json-rpc/pollserver.cpp:243-358 | the invariant holds after every run |
| PollGuarantees.OneMessageInFlight | src/json-rpc/pollserver.cpp:120-229 | in every reachable state each message is in exactly one stage, no read has failed and no job has met another or a deleted channel |
| PollGuarantees.History | src/json-rpc/pollserver.cpp:332-358 | requests started, responses made and calls returned stay matched through every run |
| PollGuarantees.EveryCallGetsItsReply | src/json-rpc/sockclient.cpp:47-57 | the i-th call to return returned the i-th response, made for the i-th request |
| PollGuarantees.NoLostWakeup | src/json-rpc/pollserver.cpp:159-200 | in every reachable state a descriptor is watched for writing exactly when its response has bytes left and no worker is about to watch it, apart from the drained one the loop thread is about to unwatch; and the read watches are the listener and the channels |
| PollGuarantees.NoStaleEvents | src/json-rpc/pollserver.cpp:254-302 | every event left in a batch still names a live channel with something to read or write, and is still watched |
| PollGuarantees.AcceptIsFresh | src/json-rpc/pollserver.cpp:282-289 | an accepted descriptor never replaces a live channel |
| PollGuarantees.LoopNeverBlocks | src/json-rpc/pollserver.cpp:121-124 | in every reachable state the loop thread has a step to take: no wait on a busy channel, none on a held mutex |
| PollGuarantees.WorkerNeverBlocks | src/json-rpc/pollserver.cpp:181-187 | a worker with a response finds the mutex free and has its own client's request |
| PollGuarantees.EveryStepGetsCloser | src/json-rpc/pollserver.cpp:243-304 | every step leaves a call in progress alone or strictly lowers its stage and the bytes left in it |
| PollGuarantees.SomeoneCanAct | src/json-rpc/pollserver.cpp:243-358 | a call in progress, accepted or not, can always be acted on: by its client, by a worker, or by the loop thread as soon as it polls, since the channel or the listener it waits on is watched and ready |
| PollGuarantees.BatchesEnd | src/json-rpc/pollserver.cpp:249-303 | every step of the loop thread shortens its batch, and no other step lengthens it |
| PollCounts.WriteStep | src/json-rpc/pollserver.cpp:159-200 | one step of any thread writes one chunk of a response or none, and what it writes is no longer left to write |
| PollCounts.WritesAndChunks | src/json-rpc/pollserver.cpp:159-200 | at any point of a run the steps that have written on a connection and the chunks still to be written make up the chunks of all its responses |
| PollCounts.ResponseTakesItsChunks | src/json-rpc/pollserver.cpp:159-200 | when a call has returned, the responses of its connection have together taken exactly their numbers of chunks in steps, in any interleaving |
| PollCounts.EachResponseTakesItsChunks | src/json-rpc/pollserver.cpp:159-200 | each single response: from the step that starts it until its call has returned and before the next one is answered, exactly (n + 4) / 1024 steps, rounded up, write on its connection |
| PollCounts.RequestsAndChunks | src/json-rpc/sockclient.cpp:59-77 | a request of n bytes is written in exactly (n + 4) / 1024 steps, rounded up, however they interleave |
| PollCounts.StepSpends | src/json-rpc/pollserver.cpp:120-200 | every step that changes a connection spends from what its requests and responses brought in |
| PollCounts.BoundedSteps | src/json-rpc/pollserver.cpp:231-357 | over a whole run the steps that touch a connection are at most two for each byte of its frames, a constant for each message, and three |
| PollProgress.StepOnItsWay | src/json-rpc/pollserver.cpp:231-357 | no step of any thread changes what a call in progress is to return, or loses the call |
| PollProgress.Advance | src/json-rpc/pollserver.cpp:231-357 | whatever a call in progress waits for, there are steps of its client, its worker or the loop thread that bring it nearer to returning |
| PollProgress.CallCanReturn | src/json-rpc/pollserver.cpp:231-357 | from every reachable state a call in progress has a run in which it returns: with the answer already made, or else with any answer its handler makes |
| PollProgress.NextCallCanReturn | src/json-rpc/pollserver.cpp:231-357 | from every reachable state a client that is in no call and has not hung up, or is still to connect, has a run in which its next call, with any request, returns any answer |
| Proto.JBuilder.Put | src/json-rpc/proto.cpp:140-147 | sets one field and keeps the others |
| Proto.BuildRequest | src/json-rpc/proto.cpp:136-152 | fills the object with the seven fields of a request |
| Proto.AcceptsExactly | src/json-rpc/proto.cpp:7-66 | the server accepts precisely the objects with six integer fields and an array, by their names on the wire, and takes id and parameters from them |
| Proto.ConversionsWrap | src/json-rpc/proto.cpp:22-56 | each conversion to a C++ integer type changes a number by a multiple of the modulus into the range of the type |
| Proto.RequestRoundTrip | src/json-rpc/proto.cpp:136-152 | the server recovers what the client wrote if and only if each field fits its C++ type |
| Proto.ResponseRoundTrip | src/json-rpc/proto.cpp:71-134 | results come back as results, and an error as its own exception exactly for the codes the client knows |
| Proto.ParseResponseExactly | src/json-rpc/proto.cpp:93-133 | any tree at all is one of five exceptions, a value or fatal, by its `error` field as an int |
| Proto.WireFormat | include/json-rpc/proto.hpp:10-36 | the names and numbers on the wire |
| Retry.AbstractClient.Call | include/json-rpc/client/client.hpp:54-106 | one request under one new message id for all attempts; the call ends at the first attempt that is neither a transport failure nor an error with a successful reconnect: a server error 2 to 5 is raised under its own code exactly by a call with a return value, and returning, giving up, missing result, lost host and abort are told just as exactly, in terms of the replies alone |
| Retry.AbstractClient.Attempts | include/json-rpc/client/client.hpp:60-106 | the loop tries in order, sends the same text every time, and stops at the first attempt not tried again |
| Retry.CallEnds | include/json-rpc/client/client.hpp:60-106 | the verdict on that attempt is the end of the call in each of these cases, if and only if |
| Retry.RetriesExactly | include/json-rpc/client/client.hpp:60-102 | an attempt is tried again exactly after a transport failure, or after an error with a successful reconnect: any error without a return value, SOCKET_CLOSED alone with one |
| Retry.FailuresCount | include/json-rpc/client/client.hpp:69-72 | the counter is the number of transport failures so far |
| Retry.VoidOutlivesValued | include/json-rpc/client/client.hpp:67-69 | a void call retries every server error and so never ends before a valued one on the same outcomes |
| SockPool.AdmitKeepsLast | src/json-rpc/sockserver.cpp:58-70 | one more accept keeps the pool the last connections in order, and evicts the oldest |
| SockPool.SockServer.Admit | src/json-rpc/sockserver.cpp:58-70 | the list after an accept, and the connection that was shut down for it |
| SockPool.SockServer.Loop | src/json-rpc/sockserver.cpp:51-74 | after any run of accepts the pool is the last of them and the closed ones are exactly the earlier ones, in order |
| SockConnection.StepConnOk | src/json-rpc/sockserver.cpp:77-108 | every step of a connection thread keeps its replies the responses in order and at most one final error |
| SockConnection.StepPairOk | src/json-rpc/sockserver.cpp:77-108 | a thread executes only its client's current request, and only one that has not run |
| SockConnection.StepEnding | src/json-rpc/sockserver.cpp:77-108 | every thread step keeps the argument how a thread ends: with the very code of its refusal, with SOCKET_CLOSED, or silently after an eviction between two rounds |
| SockConnection.HangUpIsSilent | src/json-rpc/sockserver.cpp:95-105 | a thread sees the end only when an eviction lets it or its client has gone with nothing left to read; it then sends nothing unless it was evicted, and changes nothing but that the connection is over |
| SockConnection.ServedRound | src/json-rpc/sockserver.cpp:77-93 | one round for a request that runs takes the first request queued, runs it once, queues its response behind the others and is back at the guard, with nothing else changed |
| SockConnection.RefusedRound | src/json-rpc/sockserver.cpp:77-106 | one round for a request that is refused queues the error of that refusal, 2 to 5 and no other, ends the thread and leaves the socket open |
| SockConnection.SendsExactly | src/json-rpc/sockclient.cpp:60-77 | a request is queued behind those before it, or lost: never on an open socket that can be read, always on a closed one |
| SockConnection.ShutDownKeeps | include/json-rpc/server/sockserver.hpp:96-100 | an eviction at any point of the thread keeps client and connection in order |
| SockConnection.CloseSocketKeeps | include/json-rpc/server/sockserver.hpp:102-106 | so does closing the socket once the thread is over |
| SockConnection.StartKeeps | src/json-rpc/sockserver.cpp:72 | so does starting the thread |
| SockConnection.SendKeeps | include/json-rpc/client/client.hpp:91 | an attempt queues the request of the current call, or loses it on a socket shut by the server |
| SockConnection.ReceiveKeeps | include/json-rpc/client/client.hpp:89-106 | a response read is that of the current call, after one execution; an error is read after none, on a connection whose thread is over |
| SockConnection.ReadFailKeeps | include/json-rpc/client/client.hpp:97-98 | a read failure is counted and changes nothing else |
| SockProtocol.ClientIsOneThread | include/json-rpc/client/client.hpp:84-106 | a client begins a call only between calls, connects or sends only before an attempt, reads only after it, and no step of another thread changes it |
| SockProtocol.NoRuns | include/json-rpc/client/client.hpp:55 | a call counted as not executed is nowhere among the executions |
| SockProtocol.HistoryKeeps | include/json-rpc/client/client.hpp:54-106 | an execution never touches a call that has ended or one not yet begun |
| SockProtocol.IncreasingKeeps | include/json-rpc/client/client.hpp:55 | executed message ids of one client keep increasing |
| SockProtocol.ThreadKeeps | src/json-rpc/sockserver.cpp:77-108 | thread steps keep the invariant of all calls |
| SockProtocol.ReadReplyKeeps | include/json-rpc/client/client.hpp:89-106 | so does reading a reply |
| SockProtocol.FailureKeeps | include/json-rpc/client/client.hpp:97-101 | so do read and write failures |
| SockProtocol.DialKeeps | src/json-rpc/sockclient.cpp:23-45 | so does connecting |
| SockProtocol.JoinKeepsPool | src/json-rpc/sockserver.cpp:60-70 | an eviction closes the oldest connection for good and puts the new one at the other end |
| SockProtocol.StepKeepsCalls | src/json-rpc/sockserver.cpp:51-108 | every step keeps the invariant of all calls |
| SockProtocol.StepKeepsPool | src/json-rpc/sockserver.cpp:51-74 | every step keeps the invariant of the pool |
| SockProtocol.StepKeeps | src/json-rpc/sockserver.cpp:51-108 | every step of every client, thread and the accept loop keeps the invariant |
| SockGuarantees.ReachableInv | src/json-rpc/sockserver.cpp:51-108 | the invariant holds after every run |
| SockGuarantees.ExactlyOnce | include/json-rpc/client/client.hpp:54-106 | a call that returned ran exactly once and returned what that run computed; one that raised a server error never ran; one that gave up after too many failures ran once |
| SockGuarantees.AtMostOnce | include/json-rpc/client/client.hpp:54-106 | no call runs twice, and a client's executed message ids strictly increase |
| SockGuarantees.ErrorMeansNotRun | src/json-rpc/sockserver.cpp:95-106 | an attempt answered by an error, SOCKET_CLOSED included, was never executed |
| SockGuarantees.RepliesInOrder | src/json-rpc/sockserver.cpp:77-108 | a connection's replies are the responses to its requests in order and then at most one error, the last thing its thread does |
| SockGuarantees.NothingAfterError | src/json-rpc/sockserver.cpp:95-106 | after its error a connection reads, executes and sends nothing |
| SockGuarantees.PoolHoldsLast | src/json-rpc/sockserver.cpp:51-74 | the pool is the last connections accepted, all open, and every earlier one is shut down, joined and closed |
| SockGuarantees.EvictionIsAnnounced | src/json-rpc/sockserver.cpp:78-105 | for every evicted connection in every run, once its thread is over: its last reply is SOCKET_CLOSED if and only if the eviction did not find the thread at its loop guard and no request was refused; if one was, the code of that refusal is its last reply; a thread found over or about to send another error had refused one |
| SockGuarantees.RefusalIsSent | src/json-rpc/sockserver.cpp:95-106 | in every run a thread that refused a request with a code ends with that code as its last reply |
| SockGuarantees.RaisedWasRefused | src/json-rpc/sockserver.cpp:82-106 | every server error a call raised is that of a step of the run which refused that very request with that very code |
| SockProgress.DoomedStep | src/json-rpc/sockserver.cpp:77-108 | no step of any thread brings a connection back whose thread is over, spins, or is about to be over silently, with nothing left to read |
| SockProgress.MidMessageBlocks | src/json-rpc/sockserver.cpp:131-140 | with a full pool, an accept that finds the oldest thread inside a message whose rest is lost blocks the accept loop |
| SockProgress.BlockedForever | include/json-rpc/server/sockserver.hpp:96-106 | a blocked accept loop accepts nothing more in any run |
| SockProgress.BlockedHappens | src/json-rpc/sockserver.cpp:51-74 | a run from the start, with a pool of one and two clients, that blocks the accept loop |
| SockProgress.StuckForever | include/json-rpc/client/client.hpp:97-101 | a call that waits on such a connection, its socket open or closed, or for a blocked accept loop, never ends, whatever happens |
| SockProgress.NextCallAfterEviction | include/json-rpc/client/client.hpp:88-102 | the next call on a closed connection leaves for a new one if the error is there and is stuck if it is not |
| SockProgress.RaisedIsLast | src/json-rpc/sockserver.cpp:95-106 | in every run a call that raised a server error is the last call of its client to end: the thread is over and the client stays on its socket |
| SockProgress.Finish | include/json-rpc/server/sockserver.hpp:96-106 | the thread of an evicted connection can always come to its end unless it spins inside a message, and on the way sends SOCKET_CLOSED where it was waiting to read or had just answered |
| SockProgress.GetAccepted | src/json-rpc/sockserver.cpp:51-74 | a connection that waits to be accepted can be, evictions in progress and full pool included, unless the accept loop is blocked by a spinning thread |
| SockProgress.CanReturn | include/json-rpc/client/client.hpp:81-106 | from any state of the invariant a call just begun can return, with any value the handler computes, unless its connection is doomed or it needs a new one from a blocked accept loop |
| SockProgress.NextCallEnds | include/json-rpc/client/client.hpp:81-106 | in every reachable state the next call of an idle client can end if and only if the client is not on a connection with nothing to read whose thread is over or about to end silently, and does not need a new connection from a blocked accept loop |
| SockRetry.ReplyVerdict | include/json-rpc/client/client.hpp:84-106 | what a client of the step system makes of a reply is what the retry loop makes of it |
| SockRetry.CallsEndAsRetried | include/json-rpc/client/client.hpp:54-106 | over every run, each call of each client has ended as the retry loop ends on the outcomes that its attempts had in that run |
| SortedMaps.LessTrichotomy | include/stubgen/servicedef.hpp:97 | the order of the generator's maps is total and strict |
| SortedMaps.LessTransitive | include/stubgen/servicedef.hpp:97 | and transitive |
| SortedMaps.LessIsLexicographic | include/stubgen/servicedef.hpp:97 | and it is the order of dictionaries |
| SortedMaps.InsertContents | include/stubgen/servicedef.hpp:62 | insertion sets one key and keeps the others |
| SortedMaps.InsertSorted | include/stubgen/servicedef.hpp:62 | insertion keeps the order |
| SortedMaps.SortedUnique | include/stubgen/writer.hpp:188-193 | the order of generation depends on the names alone, not on the order in the specification |
| SortedMaps.MapBuilder.Add | include/stubgen/servicedef.hpp:58-63 | adding a parameter or member replaces one of the same name |
| SortedMaps.FromKeys | include/stubgen/classdef.hpp:50-62 | reading a definition yields its names in order, the last kind given for each |
| Serializers.AcyclicExactly | include/stubgen/writer.hpp:53-70 | the class tables the round trips hold for are exactly those in which no class contains itself, at any depth |
| Serializers.ReadWrite | include/stubgen/writer.hpp:248-260 | reading back what a type's serializer wrote gives the same value and consumes exactly its elements, by induction on class nesting |
| Serializers.ReadWriteAll | include/stubgen/writer.hpp:252-256 | the same for the members of a class in map order |
| Serializers.WriteSplit | include/stubgen/writer.hpp:252-256 | members are written one after the other in map order |
| Serializers.WriteOne | include/stubgen/writer.hpp:248-260 | a value of a built-in type is one element and that of a class what its members are |
| Serializers.WriteRead | include/stubgen/writer.hpp:248-260 | whatever a read accepts is a value of the type, and writing it gives the elements consumed |
| Serializers.WriteReadAll | include/stubgen/writer.hpp:252-256 | the same for the members of a class |
| Services.AbstractService.Reg | include/json-rpc/server/service.hpp:44-52 | registers a handler and reports whether the id was taken |
| Services.AbstractService.RegWrappers | include/stubgen/writer.hpp:153-160 | the generated registration reports a clash if and only if two ids are equal |
| Services.DispatchLast | include/json-rpc/server/service.hpp:55-68 | a request runs the last handler registered under its id, or none |
| Services.DispatchFaithful | include/json-rpc/server/service.hpp:44-68 | every function is reached under its own id exactly when the ids are pairwise distinct |
| Stubs.ItosInjective | include/stubgen/writer.hpp:113 | argument numbers give distinct decimal strings |
| Stubs.ArgNamesDiffer | include/stubgen/writer.hpp:113 | and so distinct argument names |
| Stubs.ItosDecimal | include/stubgen/writer.hpp:113 | and are those numbers in decimal, without leading zeros |
| Stubs.EmitClient | include/stubgen/writer.hpp:184-211 | the emission loop produces the body whose meaning is proved |
| Stubs.EmitWrapper | include/stubgen/writer.hpp:92-140 | so does that of the wrapper, argument numbering and list included |
| Stubs.ClientSends | include/stubgen/writer.hpp:186-207 | whatever the server answers, running a stub makes one call, under its function's constant, with the parameters serialized in map order under their declared types |
| Stubs.StubEnds | include/stubgen/writer.hpp:184-206 | whatever the server answers, a stub run to its end raises the error the reply says, returns the result the reply holds if and only if it has a return type and the reply holds one, and without a return type ends on any other object |
| Stubs.RunGets | include/stubgen/writer.hpp:111-124 | the emitted argument statements do what one loop over the parameters does |
| Stubs.LoadReads | include/stubgen/writer.hpp:111-124 | that loop succeeds exactly when the array can be read as the parameters, and puts each value in its numbered local |
| Stubs.WrapperCalls | include/stubgen/writer.hpp:91-140 | on any array a wrapper either raises the serializer's exception and calls nothing, or calls its method once with each value in its parameter's position and replies with the result |
| Scopes.StubCompiles | include/stubgen/writer.hpp:184-211 | every name in a stub means what the generator meant if and only if no parameter is called `sout`, `call`, `OutSerializer` or, with a return value, `__r` or like the return type; no parameter type is called like an earlier parameter; each type denotes exactly one type outside the class; and no member hides one of these |
| Scopes.WrapperCompiles | include/stubgen/writer.hpp:91-140 | every name in a wrapper means what the generator meant if and only if its method is not called like a local, no type it uses like a local before it, each such type denotes exactly one type outside the class, and no member hides it |
| Scopes.SpecCompiles | include/stubgen/writer.hpp:84-211 | all names of a specification resolve if and only if they pass these checks function by function |
| Scopes.OneMeaning | include/stubgen/writer.hpp:84-211 | a name denotes a type outside the generated classes if and only if it is declared as one in exactly one of the three ways and never as a value |
| Scopes.ConstantIsNoType | include/json-rpc/proto.hpp:10-25 | no function can have a parameter of a class called like a constant of the protocol header, such as `Result` |
| Scopes.ImportedIsAmbiguous | include/stubgen/writer.hpp:49-50 | nor of a class called like a type of a namespace in use |
| Scopes.ProtocolParameter | include/stubgen/writer.hpp:201-206 | a parameter called like the protocol class is harmless |
| EndToEnd.StubCallsMethod | include/stubgen/writer.hpp:91-211 | for a specification whose names resolve and whose ids differ: the emitted stub, run to its end against the service, makes one call, which runs the method once with each argument bound to the parameter it was named for, and the stub's return statement yields what the method returned |
| EndToEnd.ServeDispatches | include/json-rpc/server/service.hpp:55-68 | a well-formed request runs the wrapper of its own function |
| EndToEnd.WrittenArgs | include/stubgen/writer.hpp:121 | the wrapper reads the stub's array back as the stub's arguments |
| EndToEnd.ReplyConcludes | include/json-rpc/client/client.hpp:114-127 | the response holds the method's result, whole and nothing else |
| EndToEnd.ServeFunction | include/json-rpc/server/service.hpp:55-68 | a request for a function is one call with the arguments its array holds, answered by the result, or PARAM_MISMATCH and no call when the array does not fit |
| EndToEnd.ServeErrors | src/json-rpc/sockserver.cpp:82-101 | the reply is JSON_NOT_PARSED if and only if the tree is no request, METHOD_NOT_FOUND if and only if it is one with an unknown id, PARAM_MISMATCH if and only if the id is known and the array does not fit its last function |
| EndToEnd.RefusedMeansNotCalled | include/json-rpc/server/service.hpp:57-67 | a request answered by an error has called nothing, and a request answered by a result exactly one method |

## Left out

- Threads and locks as objects: `PollServer::loop`, `ConnectionThread::run` and the accept loop appear as steps on values, since their point is their interleaving; aliasing between threads is not modelled.
- `stop`, destructors and heap ownership: shutdown races, the second `shutdown` of a connection when it is deleted, and a channel deleted while a client closes in mid-call.
- Clients of the poll server that pipeline requests or hang up in mid-call: a channel is not built for them.
- The wait on `_read_cond`: shown never to happen under synchronous clients.
- Negative read results and end of file in the middle of a message.
- Socket set-up, `getaddrinfo`, `select` itself, `fcntl`, timeouts and logging: choices left open in the steps.
- The text of the generated header and hash values: statements are data, and ids an arbitrary function of the upper-cased name.
- Container types of parameters, such as `std::vector<int>`: one element, as JConer's serializer is not in the repository.
- Serializers.ReadWrite: does not cover classes that contain themselves, for which the generated header does not compile.
- Buffers.WRONBuffer.Write: requires the grown size to fit the int it is computed in.
- Buffers.WRONBuffer.Replay: requires the same of the most the buffer ever holds.
- Channels.Channel.Send: requires the send mutex to be free, where the code would wait for it; `WorkerNeverBlocks` shows it always is.
- Channels.Channel.Close: requires the send mutex to be free, where the code would wait for it; `CloseKeeps` shows it is.
- Channels.Channel.Read: requires that the channel is not busy, where the code would wait on `_read_cond`.
- Scopes.StubCompiles: is about the lookup of names alone. Names are taken to be C++ identifiers that are no keywords, and a type to be one name or a keyword; whether a type can be serialized is not asked.
- Clashes between declarations of the generated header and names outside the stub and wrapper bodies: two members or classes of one name, a class whose member is called like a type it uses, classes in an order that uses one before it is defined, and a function called `reg` or `register_service`, which hides the base's from the registration.
- Names the included headers declare, other than the constants of the protocol header: a parameter of `Scopes.Compiles`, as JConer's and the standard library's headers are not part of this model.

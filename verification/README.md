# CPPReactor: a verified model of its core

CPPReactor is a multi-threaded Reactor HTTP server. One accepting thread and N event loops share
descriptor numbers that the kernel reuses; each loop runs handlers that call back into it; a
resumable parser and a growable buffer turn reads into requests; responses leave through partial
writes; SQL requests are answered from another thread. This project models those parts in Dafny and
proves what the design relies on. `dafny verify dfyconfig.toml` checks all of it.

## How the model is laid out

**Connection lifecycle** (`ConnStates`, `Lifecycle`, `LifecycleProof`, `LifecycleSafety`, `LifecyclePlaces`, `TcpServer`, `LoopSteps`). A `Server` value is
the whole program: the kernel's open descriptors, `conns_`, every loop's queue, local queue and
`channelMap_`, destructors under way, and `pendingCloseFds_`. A `Step` is one thread's move between two
points where it can be interrupted; `accept` may return any number that is not open. DELETE and MODIFY carry only a
number in the program; here each also carries the connection it was issued for, which no guard reads
and the theorems compare against. `TcpServer` is the object with its loops over the table, and
`EraseAllErases` and `ClosesAlike` connect its erasing loop and `handleClose` to the protocol's steps, and
`LoopSteps` does the same for the event loop object and its local queue.

**Event loop over poll** (`PollTable`, `PollDispatcher`, `EventLoop`, `Wakeup`, `WakeupHistory`). Classes with the pollfd array, the
map and the two queues. A handler is arbitrary code: any number of `addTask`, `post` and
`writeEventEnable` calls on the loop it runs in, nested to any depth (`depth` only bounds one call
tree and every theorem leaves it open). At every lock other threads may have pushed anything. What a
Channel task does is a function (`Apply`), and the map at every moment is the replay of everything
applied to it, so conservation of the queue is conservation of effects. Each slot carries the number of
its registration; `active` requires that it is still the one `poll` collected results for. `Wakeup` is the
protocol between producers, the socket pair and the sleeping loop.

**Parser and buffer** (`Text`, `Buffer`, `HttpSyntax`, `Framing`, `HttpRequest`, `Fragmentation`, `RoundTrip`,
`Verdicts`). `Buffer` keeps a byte queue beside
its array and indices. `HttpSyntax` states the parser as functions of its fields and the bytes; the
class `HttpRequest` computes them in place. Message syntax is that of RFC 9112 sections 2.1, 3, 5 and
6.2, as far as the code follows it.

**Connection** (`Connection`, `TcpConnection`, `ConnectionRuns`, `ConnectionStreams`, `ConnectionReplies`,
`KeepAlive`). The handlers as
functions, the class that computes them over two buffers and the in-flight parser, and runs of one
connection: batches, partial writes, EAGAIN, error events, nested deletes, idle close and posted completions
in any order. `ConnectionReplies` keeps a ledger of what is due from the bytes that arrive, the handlers' answers and the
completions, in terms of its own, apart from the connection's fields and functions, and compares the bytes with that.

**SQL** (`Executor`, `SqlExecutor`, `ThreadLocalSqlConn`, `SqlParam`, `SqlHandler`, `AsyncReplies`,
`Deliveries`). The worker's protocol and
object, its database connection with every way the driver's calls can end, the handler, and the whole way
of an asynchronous request from a connection through a job and its completion back to that connection.

**Percent codec and links** (`Segments`, `StringUtils`,
`DirectoryLinks`) and **router** (`HttpRouter`): loops proved against functions, and the functions' inverses.

## Findings

- A request without headers is recognised only once a CRLFCRLF appears from its blank line on, so it
  waits for later bytes (`RoundTrip.HeaderlessRequestWaits`); `RoundTrip.ParserIsExact` gives the exact condition.
- The loop's public `post` and `addTask(DELETE)`, called on its own thread, write no wake-up byte: what a callback queues
  that way after the round's swaps waits until poll returns by itself (`Wakeup.OwnWorkMayWait`), and
  `Wakeup.OwnWorkWaitsExactly` says exactly when. The only callbacks the repository itself posts
  (`src/handler/SqlHandler.cpp`) do nothing or end in `addTask(MODIFY)`, whose nested processTaskQ takes what is queued by then.
- The executor accepts jobs before its first `start()`, and nothing runs them until then
  (`Executor.JobBeforeStart`; exact condition in `Executor.RestingMeansDone`).
- With the ping switched off, a query may run on a connection object that never connected: if the worker's
  first connect failed and the clock has passed neither limit, nothing makes it again
  (`ThreadLocalSqlConn.QueryWithoutConnection`; exact condition in `ThreadLocalSingleConn.WithConnection`).
- A pattern that uses a parameter name twice may match a url that no value of it rebuilds
  (`HttpRouter.RepeatedName`); `HttpRouter.RebuildableWhen` says exactly when one does.

## Model

| member | source | states |
|---|---|---|
| LifecycleProof.StepKeepsInv | src/net/TcpServer.cpp:123-303 | Every step of the accepting thread, the loops, handlers and destructors keeps the ownership invariant: `conns_` lists exactly the unerased connections, a number stays open until its own Channel closes it, every queue and `channelMap_` agree on whom a number means, each finished death is reported, and once. |
| LifecycleProof.GuardsNeverBlock | src/core/EventLoop.cpp:267-301 | The guards of the step relation hold in every state the invariant allows wherever the program can act, so they exclude no interleaving it has; `accept` may return every number that is not open. |
| LifecycleSafety.FdReuseSafety | src/core/EventLoop.cpp:219-301 | In every run, a DELETE or MODIFY that finds a Channel finds the one of the connection it was issued for, and an ADD never finds its number taken. |
| LifecycleSafety.ErasedOnlyAfterDestroyed | src/net/TcpServer.cpp:279-289 | In every run, the entry erased from `conns_` is the reported connection itself, with its channel pointer cleared and no Channel, queued ADD or destructor of it left on any loop. |
| LifecycleSafety.OnlyEraseRemoves | src/net/TcpServer.cpp:279-289 | No other step removes or replaces an entry of `conns_`. |
| LifecycleSafety.LiveChannelsAreDistinct | src/core/EventLoop.cpp:348-386 | In every run, no two live Channels on any loops share a number; each belongs to the connection `conns_` lists, and the kernel still holds the number open for it. |
| LifecycleSafety.ClosedAtMostOnce | src/net/Channel.cpp:28-35 | In every run, two `close` calls never act for the same accept, and each closes a number that its own accept still holds. |
| LifecycleSafety.GaugeIsExact | src/net/TcpServer.cpp:123-202 | At every top of the accept loop of every run, the active-connections gauge equals the size of `conns_`. |
| LifecyclePlaces.NothingIsLost | src/net/TcpServer.cpp:123-303 | In every run, each connection of `conns_` stands at exactly one place: in the accepting thread's hand, as an ADD in its loop's queue, in its loop's map, in a destructor before or after it told the connection, or in the reports. |
| LifecyclePlaces.DeathIsReported | src/net/TcpConnection.cpp:188-196 | In every run, a connection whose destructor has ended stands in the reports until the table loses it. |
| LifecyclePlaces.ClosingIsUnderWay | src/net/TcpConnection.cpp:440-457 | In every run, a connection that is closing has its DELETE in its loop's queue, with its Channel mapped or its ADD queued before it, or its destructor runs. |
| LifecyclePlaces.ConnectingIsBrief | src/net/TcpConnection.cpp:110-135 | In every run, only the connection the accepting thread is handing over is still connecting. |
| LifecyclePlaces.EveryTaskOnce | src/core/EventLoop.cpp:195-301 | In every run, what was asked of a loop (each first close one DELETE, each hand-over one ADD, each change of interest one MODIFY) is what it applied, followed by what it still has to apply, in order. |
| LifecyclePlaces.NoDescriptorLeaks | src/net/TcpServer.cpp:155-202 | In every run, the descriptors the kernel holds open are exactly those of connections that have not closed theirs, and the one just accepted. |
| LifecyclePlaces.KernelStep | src/net/Channel.cpp:28-35 | Only accept opens a descriptor, and a step closes one exactly if it calls close for it. |
| LifecyclePlaces.NumbersAreValid | src/net/TcpServer.cpp:295-303 | In every run, connections have numbers from 0 on, so no report is ignored for its number. |
| TcpServerModule.TcpServer.CloseIdleConnections | src/net/TcpServer.cpp:253-266 | Closes exactly the connected keep-alive connections that were quiet too long, in whatever order the table is walked, and leaves all others alone. |
| TcpServerModule.TcpServer.EraseClosed | src/net/TcpServer.cpp:279-290 | The table loses exactly the reported descriptors, and the count is how many entries went, whatever is reported twice or not in the table. |
| TcpServerModule.TcpServer.CleanupClosedConnections | src/net/TcpServer.cpp:251-291 | One cleanup: idle close, then everything reported so far leaves the table and the gauge drops by as much as the table. |
| TcpServerModule.TcpServer.EnqueueClosedConnection | src/net/TcpServer.cpp:295-303 | A report is appended; a negative number is ignored. |
| TcpServerModule.TcpServer.ChannelDestroyed | src/net/TcpConnection.cpp:188-196 | When a Channel ends, its connection is disconnected and its own number is reported to the server. |
| TcpServerModule.TcpServer.Insert | src/net/TcpServer.cpp:167-197 | A connection enters the table and the gauge with its close callback set, or, if its number is still taken, its descriptor is closed and nothing else changes. |
| TcpServerModule.TcpServer.AcceptConnections | src/net/TcpServer.cpp:123-202 | Any number of rounds keep the table's connections distinct and the gauge exact. |
| TcpServerModule.EraseAllErases | src/net/TcpServer.cpp:279-290 | The protocol's erase steps, taken to the end, do to `conns_`, the removed count and everything else what the loop does. |
| TcpServerModule.ClosesAlike | src/net/TcpConnection.cpp:440-457 | `handleClose` changes a connection in the protocol as it does in the connection model, and the DELETE the one asks for is the one the other pushes. |
| TcpServerModule.DestroysAlike | src/net/TcpConnection.cpp:188-196 | The end of a Channel changes a connection in the protocol as in the connection model, before the server is told, and then the connection's own number is appended to the reports, as `ChannelDestroyed` appends it. |
| LoopSteps.SwapAlike | src/core/EventLoop.cpp:267-273 | The swap hands the loop object and the protocol the same elements. |
| LoopSteps.TaskAlike | src/core/EventLoop.cpp:279-300 | One element of the queue does the same to the loop's map and to the protocol's; the Channel that the map does not take, or no longer holds, is the one whose descriptor the protocol closes. |
| LoopSteps.ErrorAlike | src/core/EventLoop.cpp:162-165 | So does an error on a descriptor. |
| LoopSteps.LoopRunsProtocol | src/core/EventLoop.cpp:267-301 | Applying a whole local queue in place, and the protocol's steps of that loop with the destructors in between, end with the same Channels in the map, and the protocol's invariant holds there. |
| PollTable.AddAgrees | src/core/PollDispatcher.cpp:40-71 | Adding a new descriptor to a table in agreement keeps agreement; it fails exactly when every slot holds a mapped descriptor, and then changes nothing. |
| PollTable.RoomIffFree | src/core/PollDispatcher.cpp:40-71 | In a table in agreement a slot is free exactly if fewer descriptors are registered than there are slots. |
| PollTable.RemoveAgrees | src/core/PollDispatcher.cpp:73-92 | Removing a mapped descriptor always succeeds and keeps agreement with the map without it. |
| PollTable.ModifyAgrees | src/core/PollDispatcher.cpp:94-123 | Modifying a mapped descriptor always succeeds and makes its events those of the Channel's mask. |
| PollTable.AddThenRemove | src/core/PollDispatcher.cpp:40-92 | Adding and removing a descriptor gives the old table back, with the slot's stale result cleared. |
| PollTable.AskedFor | src/core/PollDispatcher.cpp:40-71 | What poll is asked for a mask: POLLIN exactly if it wants to read, POLLOUT exactly if it wants to write, nothing else. |
| PollTable.TellsWhatItMeans | src/core/PollDispatcher.cpp:137-162 | What `active` is told for a slot: read exactly if the mask asks for it and POLLIN holds, write exactly if it asks and POLLOUT holds, error exactly if POLLERR, POLLHUP or POLLNVAL holds. |
| PollDispatcherModule.PollDispatcher.FindSlot | src/core/PollDispatcher.cpp:75-86 | The search loop stops at the first slot holding the number, or past the end. |
| PollDispatcherModule.PollDispatcher.Add | src/core/PollDispatcher.cpp:40-71 | In place, the first free slot takes number and events; false, with nothing changed, exactly when none is free. |
| PollDispatcherModule.PollDispatcher.Remove | src/core/PollDispatcher.cpp:73-92 | In place, the slot of the number is freed with events and results cleared. |
| PollDispatcherModule.PollDispatcher.Modify | src/core/PollDispatcher.cpp:94-123 | In place, only the events of the number's slot change. |
| PollDispatcherModule.PollDispatcher.Poll | src/core/PollDispatcher.cpp:125-135 | What poll may report: wanted or error conditions on used slots, nothing on free ones. |
| PollDispatcherModule.Channel.WriteEventEnable | src/net/Channel.cpp:70-80 | Only the write bit of the mask is set or cleared. |
| EventLoopModule.EventLoop.constructor | src/core/EventLoop.cpp:39-72 | A new loop has queued and applied the ADD of its wake-up Channel, which alone is mapped, listening for reads; map and table agree. |
| EventLoopModule.EventLoop.AddChannel | src/core/EventLoop.cpp:348-366 | Succeeds exactly for an unmapped number while fewer than 1024 are mapped; map and table gain just that Channel, or are as before; agreement is kept. |
| EventLoopModule.EventLoop.RemoveChannel | src/core/EventLoop.cpp:373-386 | A mapped number always leaves both map and table, and nothing else changes; agreement is kept. |
| EventLoopModule.EventLoop.ModifyChannel | src/core/EventLoop.cpp:388-397 | A mapped number's events become its mask's: it is no longer stale; nothing else changes. |
| EventLoopModule.EventLoop.ApplyTask | src/core/EventLoop.cpp:279-300 | One element of the queue does to map and table what its kind says: ADD registers an unmapped Channel if there is room, DELETE removes, MODIFY refreshes. |
| EventLoopModule.EventLoop.ApplyTasks | src/core/EventLoop.cpp:275-301 | The first loop of processTaskQ leaves map and table as its local queue, applied once each from first to last, makes them, and ends with both in agreement although MODIFYs were pending. |
| EventLoopModule.EventLoop.TakeTasks | src/core/EventLoop.cpp:269-273 | The swap takes everything queued, with whatever other threads added before the lock. |
| EventLoopModule.EventLoop.ProcessTaskQ | src/core/EventLoop.cpp:267-317 | For any nesting and any producers: everything pushed before is applied and every callback queued on entry has run; what is pushed equals what is applied plus what is queued, in order; the map is the replay of what was applied; callbacks posted equal executed plus queued plus those in stacked local queues; table and map agree. |
| EventLoopModule.EventLoop.RunCallbacks | src/core/EventLoop.cpp:303-316 | Every callback queued on entry has run on return, each exactly once, although every one may re-enter the loop. |
| EventLoopModule.EventLoop.Handler | src/core/EventLoop.cpp:303-316 | Entering a callback takes it off the stacked queues and records it once; whatever calls it makes into the loop, the loop stays steady. |
| EventLoopModule.EventLoop.AddTask | src/core/EventLoop.cpp:195-250 | From the loop's own thread, the given element is queued behind what others queued; ADD and MODIFY are applied before it returns, a DELETE waits in the queue with nothing applied, and a negative number is refused with nothing changed. |
| EventLoopModule.EventLoop.Post | src/core/EventLoop.cpp:321-333 | The given callback is queued behind what others posted; agreement and conservation are kept. |
| EventLoopModule.EventLoop.SetWriteInterest | src/net/TcpConnection.cpp:298-302 | Queues the MODIFY with every mask as it was but that of the given Channel, whose write bit is set or cleared as asked; on return that MODIFY is applied and agreement holds. |
| EventLoopModule.EventLoop.InvokeCallback | src/core/EventLoop.cpp:167-182 | Callbacks are invoked only on a Channel the map owns at that moment. |
| EventLoopModule.EventLoop.Active | src/core/EventLoop.cpp:146-185 | Entered only with the descriptor and the events that poll collected for a slot which still holds that registration. An error removes the Channel and invokes nothing; otherwise the read callback runs once if asked for, then the write callback of exactly the Channel that holds the number when that has returned; a readiness to write is dropped only if the number was removed in between. |
| EventLoopModule.EventLoop.Deliver | src/core/EventLoop.cpp:167-184 | The callbacks of one activation are those two, in that order, and no others; if no write callback follows, nothing changes after the lookup that found none. |
| EventLoopModule.NotRemoved | src/core/EventLoop.cpp:348-397 | Over any further changes, a number that no DELETE and no error removes keeps its Channel. |
| EventLoopModule.EventLoop.Dispatch | src/core/PollDispatcher.cpp:125-165 | At poll, table and map agree. Every call of `active` tells a mapped descriptor what its mask at poll asked for and what then held (read for POLLIN, write for POLLOUT, error for the three error conditions), off its own slot, in order, none twice; every mapped descriptor with something to be told is told, unless its slot has lost the registration during the walk; however handlers change the table, the loop ends steady; a failed poll touches nothing. |
| EventLoopModule.WalkIsTruthful | src/core/PollDispatcher.cpp:125-165 | From a table in agreement with the masks and a complete walk over what poll left, the events of every call follow from the masks and the conditions alone, and nothing to be told is left out. |
| EventLoopModule.EventLoop.Visit | src/core/PollDispatcher.cpp:137-162 | One turn of the walk calls `active` exactly for a slot that still carries results, with the descriptor and events collected for it. |
| EventLoopModule.EventLoop.Run | src/core/EventLoop.cpp:118-136 | In every round made, poll is followed by a walk as Dispatch promises it, or by none if it was interrupted, and then by processTaskQ; rounds go on exactly until a request to quit is seen or poll fails, which is an error; all tasks pushed before are applied by then and the loop is steady; another thread's call is an error. |
| Wakeup.StepKeepsInv | src/core/EventLoop.cpp:90-136 | Every step of producers and loop keeps: queued foreign work has a producer about to write, an unread byte, or a loop that swaps that queue before it sleeps. |
| Wakeup.NoLostWakeUp | src/core/EventLoop.cpp:195-333 | In every run, if the loop sleeps while another thread's work is queued, a byte is unread or the producer of that very item has yet to write. |
| Wakeup.NoLostQuit | src/core/EventLoop.cpp:336-340 | The same for a request to quit made while the loop runs. |
| Wakeup.TakenBeforeNextSleep | src/core/EventLoop.cpp:118-136 | Once poll has returned, everything queued by then is taken before the loop sleeps again. |
| Wakeup.OwnWorkWaitsExactly | src/core/EventLoop.cpp:303-333 | The loop's own DELETEs, and likewise its own posts, wait in a sleeping loop if and only if a callback of the round queued one after the swaps and no nested processTaskQ has taken it since. |
| Wakeup.OwnWorkMayWait | src/core/EventLoop.cpp:303-333 | A run in which they are, with no byte to wake the loop. |
| WakeupHistory.QueueIsPushes | src/core/EventLoop.cpp:195-317 | In every run, a queue holds exactly what other threads pushed since its last swap, nested or not. |
| WakeupHistory.NoWakeUpIsLost | src/core/EventLoop.cpp:195-333 | The guarantee told by the steps alone: if the loop sleeps while something pushed has not been swapped out, a byte is unread or whoever pushed it has not written since. |
| WakeupHistory.NoQuitIsLost | src/core/EventLoop.cpp:118-136 | The same for a request to quit; and the loop ends at its next look at the flag. |
| WakeupHistory.BytesAreWritten | src/core/EventLoop.cpp:90-109 | Unread bytes were written and not refused; without a drain none is gone. |
| WakeupHistory.DrainEmpties | src/core/EventLoop.cpp:90-109 | A drain that finds fewer than 256 bytes leaves only what is written after it. |
| BufferModule.Buffer.Append | src/core/Buffer.cpp:73-78 | The byte queue gains exactly the appended bytes; indices and capacity bound stay valid. |
| BufferModule.Buffer.Retrieve | src/core/Buffer.cpp:80-96 | The queue loses its first bytes, or all of them. |
| BufferModule.Buffer.RetrieveAsString | src/core/Buffer.cpp:113-122 | What is returned and what is left make up the old queue. |
| BufferModule.Buffer.ReadFd | src/core/Buffer.cpp:139-167 | The queue gains exactly the bytes readv delivered, also when they spill into the 32 KB side buffer; an error changes nothing. |
| BufferModule.Buffer.WriteFd | src/core/Buffer.cpp:169-177 | The queue loses exactly the bytes written. |
| BufferModule.Buffer.FindIn | src/core/Buffer.cpp:44-49 | The first offset of the pattern in the queue. |
| BufferModule.Buffer.EnsureWriteableBytes | src/core/Buffer.cpp:194-200 | Room for the bytes, the queue unchanged, and an array no longer than max(1032, 2 * peak + 7) for the new peak. |
| BufferModule.Buffer.MakeSpace | src/core/Buffer.cpp:209-222 | It compacts exactly when the free bytes on both sides suffice, and keeps the queue either way. |
| BufferModule.Buffer.Compact | src/core/Buffer.cpp:215-221 | Runs only with bytes to reclaim; the overlapping copy moves the queue to the front unharmed. |
| Fragmentation.HeaderLoopNeverWaits | src/protocol/HttpRequest.cpp:172-220 | Behind the CRLFCRLF gate the header loop ends without ever needing more bytes. |
| Fragmentation.HeadAllOrNothing | src/protocol/HttpRequest.cpp:172-220 | A wait in the header block has consumed no byte and recorded no header. |
| Fragmentation.DecisionExtends | src/protocol/HttpRequest.cpp:97-269 | More bytes never change a decision; they only lengthen what is left over. |
| Fragmentation.ResumeIsRestart | src/protocol/HttpRequest.cpp:97-269 | A parser that waited and gets more bytes ends exactly where one that saw them all would. |
| Fragmentation.FragmentationIndependence | src/protocol/HttpRequest.cpp:21-58 | Every split of a byte stream into reads gives the same first decision, the same request fields and the same leftover bytes as parsing the whole at once. |
| RoundTrip.PrintParses | src/protocol/HttpRequest.cpp:130-293 | A printed well-formed request followed by any bytes parses back to its own fields and leaves those bytes, if a CRLFCRLF gate opens. |
| RoundTrip.ParsePrints | src/protocol/HttpRequest.cpp:130-269 | Whatever the parser accepts is the printed form of the well-formed request it returns. |
| RoundTrip.ParserIsExact | src/protocol/HttpRequest.cpp:97-269 | The parser returns a request and leftover exactly for the printed well-formed request before that leftover, given the gate's bytes; a request is well formed if its first Content-Length, in any case, is a numeral of its body's length, of a megabyte at most, or if it has neither. |
| RoundTrip.HeaderlessRequestWaits | src/protocol/HttpRequest.cpp:175-178 | A complete request without headers keeps the parser waiting. |
| RoundTrip.ManyRoundTrip | src/protocol/HttpRequest.cpp:21-58 | n printed requests in a row, followed by any bytes, parse back as the same n in order with those bytes left. |
| RoundTrip.LengthRoundTrip | src/protocol/HttpRequest.cpp:235-252 | Reading a Content-Length inverts printing a length, up to the range of size_t. |
| RoundTrip.ToDecimalMeans | src/net/TcpConnection.cpp:345-358 | A printed length is the decimal numeral of the length, by the places of its digits, with no zero in front. |
| Framing.FindHeaderMeans | src/protocol/HttpRequest.cpp:271-293 | The search finds the value of the first header whose name has the key's letters, each in either case, and nothing exactly if there is none. |
| Framing.ParseLengthMeans | src/protocol/HttpRequest.cpp:235-252 | A Content-Length is read as n exactly if it is the numeral of n within 64 bits, perhaps with zeros in front and blanks around it. |
| Verdicts.VerdictIsExact | src/protocol/HttpRequest.cpp:97-269 | For every byte string, the parser waits exactly for an unfinished line, header block or announced body, and says too large exactly if more than 1048576 bytes are announced; with ParserIsExact, the rest is malformed. |
| Verdicts.AnyCaseFrames | src/protocol/HttpRequest.cpp:222-293 | A printed request whose length header is spelled in any case comes back with its body and leaves the rest. |
| Text.ToLowerCompares | src/protocol/HttpRequest.cpp:271-293 | Comparing in lower case is comparing letter by letter, upper and lower case of one letter being the same. |
| HttpRequestModule.HttpRequest.ParseLine | src/protocol/HttpRequest.cpp:130-170 | In place, the request line's three parts, the state and the buffer are what the grammar function gives, in every outcome. |
| HttpRequestModule.HttpRequest.ParseHead | src/protocol/HttpRequest.cpp:172-220 | The in-place header loop over the shared buffer computes the recursive header function. |
| HttpRequestModule.HttpRequest.ParseBody | src/protocol/HttpRequest.cpp:222-269 | In place, Content-Length decides between done, wait, 400 and 413 as the function says. |
| HttpRequestModule.HttpRequest.FindHeaderValue | src/protocol/HttpRequest.cpp:271-293 | The loop finds the first header of that name, each letter in either case, and nothing exactly if there is none. |
| HttpRequestModule.HttpRequest.Parse | src/protocol/HttpRequest.cpp:97-128 | The resumable driver continues from the stored state as the function does. |
| HttpRequestModule.ParseRequest | src/protocol/HttpRequest.cpp:21-58 | Outcome, leftover bytes, 413 flag and the in-flight object are those of the function, for a new or a resumed parser. |
| TcpConnectionModule.TcpConnection.AppendSimpleResponse | src/net/TcpConnection.cpp:331-364 | The write buffer gains exactly the serialized response with the length of its body. |
| TcpConnectionModule.TcpConnection.HandleRead | src/net/TcpConnection.cpp:210-312 | Every field, both buffers and both logs end as the read function says, on data, end of stream and errors. |
| TcpConnectionModule.TcpConnection.HandleWrite | src/net/TcpConnection.cpp:388-432 | The same for the write handler, with any partial write or error. |
| TcpConnectionModule.TcpConnection.HandleClose | src/net/TcpConnection.cpp:440-457 | Closing is idempotent and asks for one DELETE. |
| TcpConnectionModule.TcpConnection.QueueSimpleResponse | src/net/TcpConnection.cpp:366-374 | An error reply is serialized at once and write interest is set. |
| TcpConnectionModule.TcpConnection.SendAsyncResponse | src/net/TcpConnection.cpp:471-503 | A completion is taken only while connected, and makes one response owed. |
| TcpConnectionModule.TcpConnection.OnChannelDestroyed | src/net/TcpConnection.cpp:188-196 | The channel pointer is cleared, the state is final, and the close callback, if set, is told the descriptor. |
| ConnectionRuns.KeepAliveCap | src/net/TcpConnection.cpp:388-457 | In every run, with any client and completions at any time, the write buffer runs empty at most as often as the limit says (a limit of 0 being 1), and after the last time no byte is written. |
| ConnectionReplies.RunFollows | src/net/TcpConnection.cpp:257-296 | For a client that waits, the responses the connection decides on are exactly those of a ledger kept from the bytes that arrive, the answers and the completions alone: each answer with its own body, its status if between 100 and 599, its reason and type if not empty, and the errors 408, 413 and 400. |
| ConnectionReplies.ShouldKeepAliveMeans | src/net/TcpConnection.cpp:45-66 | A request persists, for HTTP/1.0 in any case exactly if its first Connection header holds keep-alive, and otherwise exactly if it does not hold close, each in any case. |
| ConnectionReplies.ExactOutputStream | src/net/TcpConnection.cpp:210-503 | For a client that waits, under any fragmentation, partial write and EAGAIN pattern, the bytes written are a prefix of the serialized answers of the handlers, completions and error replies in order, and all of them when nothing is owed; one for each request handled or error. |
| KeepAlive.AnswersReadBack | src/net/TcpConnection.cpp:210-503 | For a client that waits, once nothing is owed, the bytes written read back as exactly the responses due, in order, each with the numeral of its status and the very body of its answer or completion. |
| KeepAlive.LastResponse | src/net/TcpConnection.cpp:388-432 | For a client that waits, a connection has sent its last response exactly if that was not to keep it alive or was the last one the limit allows; all before it were. |
| KeepAlive.ClosingMeans | src/net/TcpConnection.cpp:440-457 | Closing moves a live state on once, asks for a DELETE if there is a Channel, leaves the rest alone and is idempotent. |
| KeepAlive.EndOfInput | src/net/TcpConnection.cpp:302-312 | The end of the input and every read error but EAGAIN close the connection and do nothing else; EAGAIN does nothing. |
| KeepAlive.FailedWrite | src/net/TcpConnection.cpp:396-407 | Every write error but EAGAIN closes the connection; nothing counts as sent. |
| KeepAlive.OutsideSteps | src/core/EventLoop.cpp:118-185 | An error, a DELETE in a nested call or at the end of a batch, the idle close and a completion may come at any moment the loop allows; the first three end the connection and change nothing else, the idle close closes it. |
| AsyncReplies.CompletionsAreExpected | src/net/TcpConnection.cpp:471-503 | In every joint history of a connection whose client waits and the SQL handler, a completion reaches the connection only while it expects one. |
| AsyncReplies.OneCompletionEach | src/handler/SqlHandler.cpp:196-263 | Each of a connection's asynchronous requests has posted one completion, or its job is running or queued, exactly one of these; and at most one sendAsyncResponse comes of it. |
| AsyncReplies.ExactOutput | src/net/TcpConnection.cpp:210-503 | The exact output stream for such histories, against the ledger, asking nothing but the client's patience. |
| AsyncReplies.SqlRefusals | src/handler/SqlHandler.cpp:163-273 | In every joint history, a SQL request brings the client 405, 400, 403 or 503 in that order of precedence, in terms of its method, its URL, its statement and the executor, or else a response to come. |
| AsyncReplies.OtherAnswers | src/net/TcpConnection.cpp:257-302 | In every joint history, a request to another handler brings the client that handler's answer, its own body and status, and changes nothing of the SQL handler's. |
| AsyncReplies.DeliveredContent | src/handler/SqlHandler.cpp:205-263 | In every joint history, a completion delivered to a connected client adds one response with the completion's own body and status. |
| AsyncReplies.ClientReads | src/net/TcpConnection.cpp:331-503 | In every joint history, once nothing is owed, what was written reads back as the responses due, each with its own body. |
| Deliveries.LoopDelivers | src/core/EventLoop.cpp:303-333 | While the loop still has the callback of a completion to run, that completion is undelivered: from the conservation of callbacks, no completion reaches its connection twice. |
| Deliveries.MoveKeepsDelivered | src/handler/SqlHandler.cpp:205-263 | Every move of the exchange keeps that deliveries are callbacks the loop has run. |
| ConnectionStreams.RequestsAreTheInput | src/net/TcpConnection.cpp:210-312 | In every run, with any client and completions at any time, until a request is malformed, the bytes read are the printed forms of the requests given to the handler, in order, and an unfinished rest. |
| ConnectionStreams.LengthHeader | src/net/TcpConnection.cpp:345-358 | The bytes of every response are a printed message whose Content-Length is the decimal length of its body. |
| ConnectionStreams.RepliesReadBack | src/net/TcpConnection.cpp:331-364 | Responses written back to back, followed by any bytes, read back one by one with their own bodies. |
| Executor.StepKeepsInv | src/persistence/SqlExecutor.cpp:29-126 | Every step of owner, worker and submitters keeps: accepted jobs equal done, running and queued ones in order; flags and thread fit the owner's place. |
| Executor.RunsInOrder | src/persistence/SqlExecutor.cpp:75-126 | In every run the jobs that ran are a prefix of the accepted ones: each once, in order of submission. |
| Executor.StopDrains | src/persistence/SqlExecutor.cpp:50-67 | When stop() has joined the worker, every accepted job has run. |
| Executor.RestingMeansDone | src/persistence/SqlExecutor.cpp:29-67 | At rest and not running, everything accepted has run exactly if the executor was ever started or nothing was accepted. |
| Executor.JobBeforeStart | src/persistence/SqlExecutor.cpp:75-85 | A run in which a job is accepted before any start() and nothing has run it. |
| Executor.RefusedExactlyAfterStop | src/persistence/SqlExecutor.cpp:29-85 | In every run, a job is refused exactly from the moment stop() has set its flag until the next start() clears it; at any other time it is accepted. |
| Executor.NoLostNotification | src/persistence/SqlExecutor.cpp:97-113 | A sleeping worker has nothing to do, or its notification is on the way. |
| Executor.ThreadSlotIsFree | src/persistence/SqlExecutor.cpp:29-42 | start() never assigns over a thread that is still joinable. |
| Executor.JoinComesToAnEnd | src/persistence/SqlExecutor.cpp:50-126 | During the join the worker can always move, every move brings its end nearer, and nobody can put it off. |
| SqlExecutorModule.SqlExecutor.Submit | src/persistence/SqlExecutor.cpp:75-85 | In place, the submit step: queued and notified, or refused. |
| SqlExecutorModule.SqlExecutor.Start | src/persistence/SqlExecutor.cpp:29-42 | Whatever happens between its sections, it ends running with a worker and loses no job. |
| SqlExecutorModule.SqlExecutor.Stop | src/persistence/SqlExecutor.cpp:50-67 | Whatever happens between its sections, stopping a running executor returns with the queue empty and every accepted job done. |
| SqlExecutorModule.SqlExecutor.Run | src/persistence/SqlExecutor.cpp:97-126 | The worker loop ends only when stopping, with nothing left to run. |
| ThreadLocalSqlConn.ThreadLocalSingleConn.MakeConnection | src/persistence/ThreadLocalSqlConn.cpp:71-86 | Making the connection closes the old one, and succeeds exactly if the factory and connect() do; a failure leaves time stamps and the broken mark alone. |
| ThreadLocalSqlConn.ThreadLocalSingleConn.EnsureConnected | src/persistence/ThreadLocalSqlConn.cpp:61-99 | A use gets through exactly if the connection can be made where needed and the ping, where asked for, passes; `broken` is set by a ping that reports failure and cleared by making the connection, by nothing else; the driver's calls come in the source's order. |
| ThreadLocalSqlConn.ThreadLocalSingleConn.WithConnection | include/persistence/ThreadLocalSqlConn.hpp:86-93 | The query runs, last, exactly if the use gets through; its connection is live, unless none was ever made on this thread although an object is there, it is not marked broken, and the clock has passed neither limit: then, and only then, it is not. |
| ThreadLocalSqlConn.QueryWithoutConnection | src/persistence/ThreadLocalSqlConn.cpp:61-99 | A use that reaches that exception. |
| SqlHandlerModule.RunJob | src/handler/SqlHandler.cpp:205-263 | Whatever the driver's calls return or throw, exactly one completion is posted, for this job; it is a 200 with the rows exactly if the query ran and succeeded, and otherwise tells the message of what failed; the query ran only on a connection that was made or pinged as configured. |
| SqlHandlerModule.WorkerTurn | src/handler/SqlHandler.cpp:205-263 | Running a job with any driver is the exchange's FinishJob move: what it posts is what that move adds. |
| SqlHandlerModule.SqlHandler.Handle | src/handler/SqlHandler.cpp:163-273 | 405 for another method than GET, else 400 without SQL text, else 403 for a writing statement when read-only; these submit nothing. Otherwise the request is asynchronous exactly if the executor took its job, and a synchronous 503 if it is stopping. |
| SqlHandlerModule.AnsweredExactlyOnce | src/handler/SqlHandler.cpp:163-273 | In every exchange each request handled was answered at once, or has posted one completion, or is still running or queued: exactly one of these, once. |
| SqlHandlerModule.CompletedWhenStopped | src/handler/SqlHandler.cpp:205-263 | Completions come in the order of acceptance, and stop() returns only after all of them. |
| SqlParam.ExtractSqlParam | src/handler/SqlHandler.cpp:30-61 | The loop returns the decoded value of the first piece named sql, or nothing. |
| SqlParam.SqlIsRecovered | src/handler/SqlHandler.cpp:30-61 | SQL text encoded after "sql=" comes back whole, whatever parameters stand before it and whatever follows. |
| SqlParam.NoSqlParameter | src/handler/SqlHandler.cpp:30-61 | Without a query, or with parameters of other names only, there is no SQL text. |
| StringUtils.UrlDecode | include/utils/StringUtils.hpp:45-71 | The index loop with its skips computes the recursive decoder. |
| StringUtils.UrlEncodePathComponent | include/utils/StringUtils.hpp:84-103 | The loop computes the recursive encoder. |
| StringUtils.DecodeInvertsEncode | include/utils/StringUtils.hpp:37-103 | Decoding undoes encoding on every byte string. |
| StringUtils.EncodeIsInjective | include/utils/StringUtils.hpp:84-103 | No two byte strings share an encoding. |
| StringUtils.EncodedAlphabet | include/utils/StringUtils.hpp:84-103 | Encodings hold only unreserved characters and percent signs. |
| StringUtils.DecodeFixesLiterals | include/utils/StringUtils.hpp:45-71 | Decoding leaves a string alone exactly if it has no plus sign and no valid escape. |
| StringUtils.HexValueMeans | include/utils/StringUtils.hpp:20-36 | A character has a hexadecimal value exactly if it is the upper or lower case digit of it. |
| StringUtils.DecodeReadsSpellings | include/utils/StringUtils.hpp:37-103 | Decoding undoes every encoding of a byte string, whichever digits of its escapes are in lower case. |
| StringUtils.EscapeIsByte | include/utils/StringUtils.hpp:45-71 | An escape decodes to its byte wherever it stands, with digits in either case, between the decodings of what is around it. |
| StringUtils.PlusIsSpace | include/utils/StringUtils.hpp:45-71 | A plus sign decodes to a space wherever it stands. |
| StringUtils.EncodedByte | include/utils/StringUtils.hpp:84-103 | A byte is encoded as itself if it is a letter, a digit or one of the four marks of RFC 3986 section 2.3, and otherwise as a percent sign and two capital digits. |
| DirectoryLinks.HtmlEscape | src/handler/StaticFileHandler.cpp:20-49 | The loop computes the character-wise escape. |
| DirectoryLinks.UnescapeInvertsEscape | src/handler/StaticFileHandler.cpp:20-49 | Reading the five character references back gives the text. |
| DirectoryLinks.EscapedIsInert | src/handler/StaticFileHandler.cpp:20-49 | Escaped text holds no angle bracket and no quote. |
| DirectoryLinks.NormalizeUrlPath | src/handler/StaticFileHandler.cpp:169-190 | In place, query and fragment go and a leading slash is there. |
| DirectoryLinks.NormalizeFixes | src/handler/StaticFileHandler.cpp:169-190 | Normalizing leaves exactly the rooted paths without query and fragment alone, and is idempotent. |
| DirectoryLinks.NormalizeMeans | src/handler/StaticFileHandler.cpp:169-190 | Of any url, what stands before the first question mark or hash remains, behind one slash if it had none; of nothing, a slash. |
| DirectoryLinks.EntryLink | src/handler/StaticFileHandler.cpp:246-266 | The loop over the pieces of a relative path joins the encodings of its segments. |
| DirectoryLinks.LinkLeadsBack | src/handler/StaticFileHandler.cpp:243-274 | Following an entry's escaped link, normalizing and decoding gives a slash, the entry's segments, and a slash for a directory. |
| DirectoryLinks.LinkIsExact | src/handler/StaticFileHandler.cpp:243-274 | It gives the relative path itself exactly if that has no leading, trailing or doubled slash. |
| Segments.SplitOfLayout | src/protocol/HttpRouter.cpp:55-89 | Splitting inverts joining plain segments with any numbers of slashes around them. |
| Segments.LayoutOfSplit | src/protocol/HttpRouter.cpp:55-89 | Every string is such a layout of its own segments. |
| HttpRouter.SplitPath | src/protocol/HttpRouter.cpp:55-89 | The nested scan computes the segments of the path before any query. |
| HttpRouter.SegmentsOfLayout | src/protocol/HttpRouter.cpp:55-89 | Splitting inverts joining under repeated slashes and any query. |
| HttpRouter.MatchSegments | src/protocol/HttpRouter.cpp:95-121 | Succeeds exactly if lengths agree and every plain segment is equal; binds each parameter, the last of a name winning. |
| HttpRouter.MatchMeans | src/protocol/HttpRouter.cpp:95-121 | A match succeeds exactly if lengths agree and each segment of the pattern begins with a colon or is equal; bound is exactly what follows a colon. |
| HttpRouter.LastWins | src/protocol/HttpRouter.cpp:95-121 | A name stands for the segment at its last place in the pattern. |
| HttpRouter.MatchIsSubstitution | src/protocol/HttpRouter.cpp:95-121 | With distinct names, a match succeeds exactly if some parameters rebuild the url, and returns such. |
| HttpRouter.MatchRebuilds | src/protocol/HttpRouter.cpp:95-121 | For any names, a successful match rebuilds the url exactly if equal names stand for equal segments. |
| HttpRouter.RebuildableWhen | src/protocol/HttpRouter.cpp:95-121 | Some parameters rebuild the url exactly if it matches with equal names for equal segments. |
| HttpRouter.OnlyThese | src/protocol/HttpRouter.cpp:95-121 | The returned parameters are the only ones that can rebuild the url. |
| HttpRouter.RepeatedName | src/protocol/HttpRouter.cpp:110-114 | A name used twice matches a url nothing rebuilds. |
| HttpRouter.RouteRoundTrip | src/protocol/HttpRouter.cpp:55-121 | A url laid out from a pattern and parameters, with any slashes and query, gives exactly those parameters back. |
| HttpRouter.Dispatch | src/protocol/HttpRouter.cpp:127-195 | The first matching exact route with its parameters; else the first allowed prefix route; else 404, exactly if no route hits. |

## Left out

- The select and epoll dispatchers: only poll is modelled.
- Sockets, poll, the clock and threads as such: replaced by nondeterministic steps at the grain of locks and system calls.
- 32-bit wrap-around of indices and counters: sizes are unbounded, except that a Content-Length beyond size_t is refused.
- Shutdown: `stop()` of the server, `shutdown()` before `run()`, and destructors at exit; lifecycle theorems cover the running server.
- Descriptors below 0 in Channels, the historical `addTask(channel, DELETE)` form, a null buffer in `parseRequest`, and the unused `maxfd_`.
- Loops without a target: `getNextLoop` and `TcpConnection::create` returning null, and `init` failing, which it never does.
- The race between entry into kConnected and early loop events is in the lifecycle protocol; a `Connection` value starts connected.
- `handleClose` is one atomic step; destroy callbacks never call `addTask`.
- ConnectionReplies.ExactOutputStream: for clients that wait for each response; a second request that arrives earlier overwrites the pending response.
- ConnectionStreams.RepliesReadBack: like `KeepAlive.AnswersReadBack` and `AsyncReplies.ClientReads`, for handlers that put no line break into a reason phrase or content type, and bodies up to the parser's own limit, since the reader is this parser.
- EventLoopModule.EventLoop.RunCallbacks: exactly once, not in what order; nested processing may run newer callbacks first.
- AsyncReplies: one connection with the SQL handler; its other handlers answer at once. That the loop runs a posted callback once is `Deliveries.LoopDelivers`.
- `cleanupCurrentThread`: the worker's connection slot ends with its thread.
- EventLoopModule.EventLoop.Handler: a handler's calls into its own loop, nested below a depth that is left open; its other effects are not modelled here.
- SqlExecutorModule.SqlExecutor.Run: bounded by a number of turns, since the original loop need not end.
- EventLoopModule.EventLoop.Run: bounded by a number of rounds for the same reason.
- A steady clock that reads its epoch: every use of the database connection comes later than that.
- Whether the 5-second wait for the rest of a request is over is an input of the read handler.
- One owner calls start() and stop(); calling them from two threads at once is not modelled.
- The read-only statement guard, the text of JSON bodies, MySQL connections, the repository layer, filesystem access, the parent link of a directory page, content types, metrics other than the gauge, logging and configuration: outside calls or easy claims.
- HttpResponse: not used by the connection, which assembles its own head.

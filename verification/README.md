# Verified models of the echo servers, their load clients and the NIC drivers

The repository implements one echo protocol several times, measures it with load clients that a driver
coordinates through Redis, and brings up two network cards from user space. This project models that
logic in Dafny and proves what it is meant to guarantee. `dafny verify dfyconfig.toml` checks it.

**The protocol.** `EchoSpec` says which byte streams an observer may see: the size header in network
byte order, then a prefix of the whole messages after a two-byte greeting. `Sequential` is `handle_conn`
of simple.c as a state machine under a kernel that moves any number of bytes at a time; it has exactly
these behaviours. `SimpleServer` is the same function as a program over a socket object (`Sockets`).

**The servers.** `Threadlets` is the io_uring loop with its kernel: a submission queue, requests in
flight, linked pairs, completions in any order, short or failed. `ThreadletInv` proves its invariant,
`ThreadletTheorems` the refinement of the sequential server and the ownership properties,
`ThreadletLife` that completions are consumed once and failures are final, `RingCapacity` and `FullRing`
exactly when the queue can be full, `ThreadletShows` the other half of the refinement, and `EagerClient`
exactly when the loop can be told from simple.c; the constructions of runs share `OneBatch`.
`EventLoop` is the imperative loop; `LoopRefinement` shows that between two waits the machine goes through
the states of that loop. `Pipeline` is uring2.c, `Epoll` is epoll_single.c, and
`EpollService` is about how long that one serves a connection.

**The clients.** `ClientMachine` is the lock-step client against any lawful server, `ClientOnServers` joins
it to the threadlet loop and to each of the other servers, `LockStep` joins it to the sequential server and proves
progress, `BoundedStreams` the same over streams of limited size, and `PipelineProgress` for uring2.c.
`ClientThread` is the code of the operation with its generator (`Generator`) and its bytes (`Messages`).

**The benchmark.** `ClientProcess` is one process with its semaphores, `Benchmark` the driver with any number
of processes, `Throughput` the arithmetic of the totals, `Measurements` what they count, `Reports` the string that
carries them, and `Accuracy` the error of what the driver prints. `ProcessRuns` and `BenchmarkRuns` show that all
this can be reached; `Counting` holds the counting arguments.

**The drivers.** `Dma` is the allocator and the address translation, `Rings` the ring set-up and the
receive poll. `PiSeries` is the series loop of go/pi.go over exact reals.

## Model

| member | source | states |
|---|---|---|
| `Sequential.LawfulIffTrace` | simple.c:13-52 | Looked at from outside, the sequential server has exactly the lawful behaviours: both streams only grow and the output is always a prefix of the header followed by the whole messages that came after the two greeting bytes. Both directions, for kernels that move any number of bytes and cut any call short; every other server is compared with this one. |
| `Sequential.NextInv` | simple.c:20-51 | Every step of the sequential server, complete, short or failed, keeps the relation between the bytes taken, the buffer and the bytes sent. |
| `Bytes.NtohlHtonl` | client.c:122-129 | The client reads back the size that a server announced in network byte order. |
| `Bytes.HtonlNtohl` | simple.c:21 | Network byte order is one-to-one on four bytes. |
| `Bytes.HtonlIsBigEndian` | simple.c:21 | The four bytes, each with its weight: the most significant one comes first. |
| `EchoSpec.WholeIsDivision` | simple.c:37-51 | The number of bytes that may be echoed is the payload length rounded down to a multiple of the message size. |
| `SimpleServer.HandleConn` | simple.c:13-52 | Whatever the kernel makes of each call, the (received, sent) pairs are those of the sequential specification; the thread is still serving after the given turns exactly when every call moved everything without an error and the client sent enough, and then all messages so far are echoed. |
| `SimpleServer.EchoOne` | simple.c:37-51 | One turn of the echo loop succeeds exactly when both calls move a whole message, and then one more message is echoed. |
| `Sockets.Socket.Send` | simple.c:23-28 | How much a send moves and what it returns, as the kernel decides. |
| `Sockets.Socket.Recv` | simple.c:30-35 | A receive takes the next bytes of the stream, no more than asked for or sent, into the front of the buffer. |
| `ThreadletInv.RunInv` | io_uring_sharded.c:76-177 | In every state of every run, for any number of connections and any behaviour of the kernel: every request, threadlet and connection satisfies the invariant that ties its buffer, its position in the stream and its linked neighbours together. |
| `ThreadletTheorems.EchoesOwnMessages` | io_uring_sharded.c:90-176 | Each connection is echoed a prefix of its own whole messages and its header bytes are a prefix of the header; connections never mix although they share `header_buf` and `msg_size_conv`. |
| `ThreadletTheorems.PoliteWire` | io_uring_sharded.c:116-135 | A client that does not complete a message before it was sent the size gets the whole header before any echo, although the header is sent by an unlinked request, and never more than simple.c may send. |
| `ThreadletTheorems.RefinesSequential` | io_uring_sharded.c:76-177 | On the connection of such a client every run of the threadlet loop, looked at after each action, is a run of the sequential server. |
| `ThreadletShows.SameBehaviours` | io_uring_sharded.c:76-177 | And conversely: whatever can be seen of the sequential server by such a client, byte by byte and at whatever moments, can be seen in some run of the threadlet loop. What can be observed of the two servers is thus exactly the same. |
| `ThreadletShows.EchoesManyMessages` | io_uring_sharded.c:150-172 | For every k and whatever a client says, if it contains k whole messages, some run echoes exactly those k messages after the header: the receive linked to a complete echo goes on. |
| `ThreadletTheorems.StopsIff` | io_uring_sharded.c:109-114 | Handling a completion ends the process exactly when an accept failed. |
| `EagerClient.EchoBeforeHeader` | io_uring_sharded.c:116-135 | For every client that completes a message without waiting, and every k up to the message size, there is a run in which the first k bytes of the echo are on the wire before the first header byte. |
| `EagerClient.EagerClientCanTell` | io_uring_sharded.c:116-164 | Whatever such a client says, some run shows it bytes that no run of simple.c produces. |
| `EagerClient.RefinementIff` | io_uring_sharded.c:76-177 | Clients that never say more than `inp`, in whatever instalments and without waiting, are served as by simple.c in all runs if and only if `inp` is less than a greeting and a message. |
| `ThreadletTheorems.OneRequestEach` | io_uring_sharded.c:63-74 | Every threadlet that was not dropped has exactly one outstanding request with its address as user data, of the kind its `pc` names; a dropped one has none. |
| `ThreadletTheorems.OneAccept` | io_uring_sharded.c:124-125 | Exactly one threadlet waits in accept, and it owns the one accept request; there is no other. |
| `ThreadletTheorems.BufferExclusive` | io_uring_sharded.c:150-172 | At most one started request touches the message buffer of a threadlet. |
| `ThreadletTheorems.LinkedSendIsPaired` | io_uring_sharded.c:155-172 | In the submission queue every linked send is directly followed by the receive of the same threadlet into the same buffer. |
| `ThreadletTheorems.MemoryIsThere` | io_uring_sharded.c:128-172 | Everything the kernel has started points at allocated memory of sufficient size and at an open connection. |
| `ThreadletTheorems.HandleReady` | io_uring_sharded.c:102-109 | The next completion of a batch can always be handled: its request and its threadlet exist. |
| `ThreadletLife.ConsumedOnce` | io_uring_sharded.c:100-175 | No completion is handled twice, counting those skipped by `continue`. |
| `ThreadletLife.NoCompletionLost` | io_uring_sharded.c:100-175 | Every posted completion is still ahead of the loop in the queue, and none is left when `io_uring_cq_advance` has advanced by `i`. |
| `ThreadletLife.FailureIsFinal` | io_uring_sharded.c:136-172 | After a receive or an echo that completes short or fails, nothing more is ever echoed on that connection; a short send does this by cancelling the linked receive. |
| `RingCapacity.QueueNeverFull` | io_uring_sharded.c:83-173 | If batches begin with at most L <= 2046 served connections, at most 3 + 2L entries are ever queued and the loop never stops with "sq is full". |
| `RingCapacity.ManyConnections` | io_uring_sharded.c:83-173 | Up to 2047 connections can be accepted in all without filling the submission queue, whatever they and the kernel do. |
| `FullRing.QueueCanFill` | io_uring_sharded.c:83-173 | A run that never begins a batch with more than 2047 served connections and accepts 2048 ends with "sq is full". |
| `FullRing.CapacityIff` | io_uring_sharded.c:83-173 | All runs with at most m connections avoid a full queue exactly when m <= 2047. |
| `FullRing.LoadIff` | io_uring_sharded.c:83-173 | All runs whose batches begin with at most L served connections avoid a full queue exactly when L <= 2046. |
| `RingCapacity.ReceivesAreConnections` | io_uring_sharded.c:127-173 | Different outstanding receives are on different connections, so there are no more of them than connections. |
| `RingCapacity.ArrivalsAreConnections` | io_uring_sharded.c:109-135 | An accept that has delivered a connection which the loop has not yet seen counts for a further one. |
| `EventLoop.EventLoop.constructor` | io_uring_sharded.c:82-88 | The set-up queues one accept for a fresh threadlet. |
| `LoopRefinement.SetUpAgrees` | io_uring_sharded.c:82-88 | That is the first state of the machine. |
| `EventLoop.EventLoop.AddAccept` | io_uring_sharded.c:63-74 | Queues an accept for a new threadlet, or ends with a full queue. |
| `EventLoop.EventLoop.HandleCqe` | io_uring_sharded.c:104-173 | The body of the for-each does to the heap and to the queue what one step of the machine does, branch by branch. |
| `EventLoop.EventLoop.ForEachCqe` | io_uring_sharded.c:100-175 | The loop over a batch handles every completion once, in order, and stops at the first exit. |
| `EventLoop.StepIsHandle` | io_uring_sharded.c:102-174 | One iteration of the program is one `Handle` action of the machine that all theorems are about. |
| `LoopRefinement.BatchIsHandles` | io_uring_sharded.c:100-175 | What a run of the machine does between two waits, with kernel and client actions in between the handled completions, is what the loop does to those completions in order: same heap, same queue, same exit, and `i` counts them. |
| `LoopRefinement.EveryBatch` | io_uring_sharded.c:90-175 | So every batch of every run, from the return of `io_uring_wait_cqe` on, is the for-each over its completions, starting with an empty submission queue. |
| `LoopRefinement.KernelKeepsQueue` | io_uring_sharded.c:91-102 | Nothing the kernel or a client does changes the entries that are not yet submitted. |
| `EventLoop.OverflowIff` | io_uring_sharded.c:116-173 | In a batch without failed accepts, the loop stops with "sq is full" exactly when the completions cost more entries than are left: 3 for an accept, 1 for a greeting, 2 for a message. |
| `Pipeline.OneRound` | uring2.c:54-95 | Whichever of the concurrent send and receive finishes first: the round goes well exactly when both move a whole message, then exactly the message in `send_buf` went out and the next one is in it; a failing round adds at most a prefix of the message. The ring starts and ends the round empty, so two entries suffice. |
| `Pipeline.HandleConn` | uring2.c:16-96 | Every run of the pipelined server is a run of the sequential one; it is still serving after k rounds exactly when the handshake and every round were complete, and has then sent the header and exactly messages 1 to k. It never sees a full ring. |
| `Pipeline.GotIfThere` | uring2.c:73-80 | How much of the next message a round receives when less of it has been sent than is asked for. |
| `Pipeline.CheckCqes` | uring2.c:80-90 | The round goes on exactly when both completions moved a whole message. |
| `Pipeline.Copy` | uring2.c:93-94 | `memcpy` puts the received message into `send_buf` and leaves the rest of it. |
| `Epoll.EpollLoop.AcceptConn` | epoll_single.c:31-50 | A new connection is registered whether or not its handshake was complete; it counts as greeted exactly when it was. |
| `Epoll.EpollLoop.ServeConn` | epoll_single.c:84-104 | A ready connection gets one whole message echoed and stays registered exactly when both calls move all of it and it was there; otherwise it is removed. Others are untouched. The abort for a missing EPOLLIN is not reached, because every connection event follows an accept that set `ev`. |
| `Epoll.EpollLoop.HandleBatch` | epoll_single.c:70-105 | The loop over a batch does what its events do one after the other, stops when accept fails, and never serves or changes a connection again that was removed. |
| `Epoll.EpollLoop.MainLoop` | epoll_single.c:64-106 | Every connection whose handshake was complete is served as by simple.c; removed connections stay as they are for good; the abort never happens. |
| `EpollService.GreetedAndServed` | epoll_single.c:84-104 | From a complete handshake on, whatever the loop does for other connections in between: a connection is still registered exactly when each of the k events reported for it moved a whole message in and a whole message out and its client had sent that many; and then it was sent the header and exactly those k messages. |
| `EpollService.RoundsServe` | epoll_single.c:64-106 | The same from any state of a registered connection. |
| `EpollService.ReportedFor` | epoll_single.c:66-71 | Of a registered connection each round reports one event, if the kernel has any. |
| `ClientMachine.OperationEchoes` | client.c:33-61 | On every connection that could be one to simple.c, at every moment of every run: the client works with the announced size, and when an operation has received its echo the buffer holds what that operation sent, which is also what came back. |
| `ClientMachine.ShortGreetingStalls` | client.c:119-135 | The greeting's send is not checked; if it was cut short, the client never gets a byte of echo. |
| `ClientOnServers.EchoesOnAnyServer` | client.c:33-61 | The same on any server shown to refine simple.c, judged on what the server has received rather than on what the client has sent. |
| `ClientOnServers.RefiningServesClients` | client.c:33-61 | Every client run on a connection whose server refines simple.c, looked at between any of the server's transfers, gets its own bytes back. |
| `ClientOnServers.OnSimpleServer` | client.c:33-61 | The client on simple.c. |
| `ClientOnServers.OnPipeline` | client.c:33-61 | The client on uring2.c. |
| `ClientOnServers.OnEpoll` | client.c:33-61 | The client on epoll_single.c, on every connection whose handshake was complete. |
| `ClientOnServers.ClientOnThreadlets` | io_uring_sharded.c:76-177 | The client of client.c joined to the threadlet loop among any number of arbitrary other clients: it is polite by its own protocol, so its connection is one to simple.c and every completed operation left in the buffer what it had sent. |
| `LockStep.NoDeadlock` | simple.c:20-51 | Client and sequential server joined by unbounded streams, no call failing: in every reachable state one of them can take a step. |
| `LockStep.OperationsAreBounded` | client.c:15-62 | However the two are scheduled, an operation ends within an explicit number of steps. |
| `LockStep.OperationCanEnd` | client.c:122-144 | From every reachable state some continuation completes one more operation. |
| `LockStep.NeverStuck` | client.c:122-144 | After any run from the beginning: someone can step, the operation ends within the bound, some continuation completes it, and a completed receive has brought back what was sent. |
| `BoundedStreams.NoDeadlockIff` | simple.c:20-51 | Over streams that hold a bytes towards the server and b towards the client, no run without a failing call gets stuck exactly when both are at least 1 and one of the two first sends fits whole: a >= 2 or b >= 4. |
| `BoundedStreams.OperationCanEndWithin` | client.c:122-144 | And then every reachable state can be continued to the end of the operation, within the bound for unbounded streams. |
| `PipelineProgress.NoDeadlock` | uring2.c:55-95 | The client joined to uring2.c, whose sends and receives overlap: one of the two can always step. |
| `PipelineProgress.OperationsAreBounded` | uring2.c:55-95 | However the kernel interleaves them, an operation ends within an explicit number of steps. |
| `PipelineProgress.NeverStuck` | uring2.c:16-96 | After any run from the beginning: someone can step, the operation ends within the bound and can be completed, and a completed receive has brought back what was sent. |
| `PipelineProgress.RoundsAgree` | uring2.c:60-90 | A round of this machine moves what a round of the program moves, and can finish exactly when that one goes well. |
| `ClientThread.OneOperation` | client.c:15-62 | An operation completes exactly when the greeting had gone out in full and both of its calls move the whole message; then exactly one message went out, the same bytes came back, and buffer and `rng_state` are as the generator left them. |
| `ClientThread.Client` | client.c:119-144 | The client thread learns the server's size and survives exactly when all its calls are complete; then it has sent the greeting and messages 0 to k-1 and received the header and the same messages. |
| `Messages.MessagesEqualIff` | client.c:15-26 | Two 64-byte messages of a thread, byte for byte, are equal exactly when their distance is a multiple of 2^61. |
| `Messages.EightWords` | client.c:19-26 | Since the loop writes elements 0, 8, 16, ..., only the first of the eight words of a 64-byte message is fresh; the others are zero. |
| `Messages.MessageBytes` | client.c:19-26 | The first byte on the wire is the low byte of the generator's state, and all from the ninth on are zero. |
| `Messages.States` | client.c:17-24 | The states start at 1, and each next one is 37x + 1 modulo 2^64. |
| `Messages.StoredBack` | client.c:50-58 | Receiving into the buffer the bytes that it holds changes nothing: bytes and words of the buffer are in one-to-one correspondence. |
| `Generator.FillMessage` | client.c:19-26 | The loop leaves consecutive generator states in elements 0, 8, 16, ... below the message size and everything else untouched. |
| `Generator.WritesInBoundsIff` | client.c:16-26 | The loop stays inside the buffer of 128 elements exactly for message sizes up to 128. |
| `Generator.FullPeriod` | client.c:20-25 | From any start, x -> 37x+1 modulo 2^n is back after k steps exactly when 2^n divides k. |
| `Generator.NoFixpoints` | client.c:20-24 | The remark in the source, as a corollary. |
| `Generator.SameStateIff` | client.c:18-25 | Two moments of a run show the same state exactly when they are a multiple of 2^n apart. |
| `Generator.ReachesEverything` | client.c:18-25 | Every state is reached from every state within one period. |
| `ClientProcess.ActInv` | multiclient.c:114-151 | Under any interleaving of main thread and N threads every semaphore holds what was posted and not yet taken, and slots hold modulo 2^64 what the threads count, which `Measurements` shows to be their measured operations. |
| `ClientProcess.AllStarted` | multiclient.c:246-251 | After N waits on `started` every thread has completed an operation. |
| `ClientProcess.GatesHold` | multiclient.c:117-138 | No thread leaves warm-up or stops measuring before the main thread has passed the corresponding gate. |
| `ClientProcess.AllReported` | multiclient.c:138-151 | After N waits on `reported` every thread has written its slot and all tokens of the four semaphores are used up, so each thread took exactly one of each kind. |
| `ClientProcess.SlotsFrozen` | multiclient.c:268-281 | From then on no slot changes, so none is read while it is written. |
| `ClientProcess.BenchReadsFinalSlots` | client.c:193-227 | In every run of client.c the totals are read from final slots. |
| `ProcessRuns.BenchCanFinish` | client.c:181-227 | For any number of threads and whatever each is to do in the measuring phase, some run of client.c gets to the totals with exactly those operations (modulo 2^64) and runtimes in the slots. |
| `Throughput.Aggregate` | client.c:221-227 | The loop computes the wrapped 64-bit totals, or ends with a division by zero exactly when some runtime is zero. |
| `Throughput.RateDefined` | client.c:224-227 | The total exists exactly when no runtime is zero. |
| `Throughput.TotalOpsIsCounted` | client.c:224-225 | Adding up slots that hold counts modulo 2^64 gives the total count modulo 2^64. |
| `Measurements.BenchCountsOperations` | client.c:193-229 | In every run of client.c that gets to the totals, each slot is the number of measured operations of its thread in the list of actions, and the printed total is the number of all of them, modulo 2^64. |
| `Measurements.SlotsRecord` | client.c:152-160 | At every moment of every run, what a thread has counted is how often it did a measured operation. |
| `Throughput.SlotsAreCounted` | multiclient.c:131-138 | In every process that keeps the invariant the slots add up to what its threads have counted, modulo 2^64. |
| `Throughput.RoundsToNearest` | multiclient.c:280-280 | Adding half the runtime rounds a thread's throughput to the nearest integer. |
| `Throughput.OneSecond` | client.c:226 | k operations in 10^9 ns are k operations per second. |
| `Throughput.ThroughputError` | multiclient.c:274-280 | With positive runtimes and no 64-bit overflow the total is within N/2 of the exact sum of num_ops*10^9/runtime. |
| `Benchmark.RunInv` | driver.py:69-102 | The counters and flags in Redis, the claimed spots, the log of reports and every process keep their relations in every run, with any number of processes launched, dying or rejected. |
| `Benchmark.MeasureIsSafe` | driver.py:87-94 | When the driver sets `should_measure`, and whenever it is up, exactly `numclients` processes hold spots and all threads of each have completed an operation. |
| `Benchmark.NoEarlyPhase` | multiclient.c:253-266 | No thread of any process measures before `should_measure` is set nor stops before `should_report` is. |
| `Benchmark.FlagsFollowDriver` | driver.py:96-99 | `should_measure` and `should_report` are up in Redis exactly from the driver's commands that set them on. |
| `BenchmarkRuns.BenchmarkCanFinish` | driver.py:69-102 | For every number of clients and threads and any work of the threads, some run ends with every process done, each thread having done exactly that work, one report of each process in the results, and a total printed. |
| `BenchmarkRuns.SlotsRecord` | multiclient.c:131-138 | In every run of the whole benchmark each slot of each process holds how often its thread did a measured operation, counted in the list of actions, modulo 2^64. |
| `BenchmarkRuns.ParamsAreThere` | multiclient.c:155-179 | A process starts threads, as many as the driver asked for, only after number, address and port were published. |
| `Benchmark.SpotsAreLimited` | multiclient.c:181-195 | Never more than `numclients` processes hold spots. |
| `Benchmark.ResultsComplete` | driver.py:98-100 | When the wait on `reported` returns, the results are the reports of exactly `numclients` different processes with spots, one each, with their throughputs, in the order of their appends. |
| `Benchmark.DriverTotal` | driver.py:66-67 | What the driver prints is the sum of those throughputs exactly when each is below 2^63; with no clients the read fails. |
| `Accuracy.DriverIsAccurate` | driver.py:69-102 | End to end: when no 64-bit sum overflows and throughputs are below 2^63, what the driver prints is within clients * threads / 2 of the exact sum of num_ops*10^9/runtime over all threads of all processes with spots. |
| `Accuracy.LogIsHolders` | multiclient.c:197-215 | The reports are about exactly the processes with spots. |
| `Reports.ParsePrinted` | multiclient.c:197-199 | `int` reads back what "%ld" printed, as one word without spaces. |
| `Reports.DigitsAre` | multiclient.c:197-199 | What is printed is the decimal number: each digit at its power of ten, and no leading zero. |
| `Reports.DriverReadsAll` | driver.py:66-67 | Splitting, parsing and summing the appended reports gives one word per report and the sum of the printed numbers, whatever the order. |
| `Reports.DriverTotalIff` | multiclient.c:197-199 | That sum is the sum of the unsigned throughputs exactly when all are below 2^63. |
| `Dma.AllocIsSafe` | i10e.c:36-44 | One allocation of any 64-bit size is aligned and starts after everything before it; a block that is returned lies inside the region exactly when the request is no larger than the region. |
| `Dma.WrappedBlock` | i10e.c:36-44 | A request of 2^64 - 1 bytes is granted, and moves the free pointer back by one. |
| `Dma.AllocAllIsSafe` | x710.c:30-38 | The blocks of a successful sequence of allocations of any 64-bit sizes are aligned, inside the region and pairwise disjoint exactly when no request is larger than the region. |
| `Dma.AllocAllSucceeds` | i10e.c:36-44 | A sequence succeeds when the sum of size + 2^align_exp - 1 fits. |
| `Dma.Region.AllocAligned` | i10e.c:36-44 | The method leaves exactly the address and the next free pointer of the specification, or reports an exhausted region; what it returns is aligned and comes after all earlier blocks. |
| `Dma.TranslationRoundTrip` | x710.c:22-28 | The two address translations undo each other on all 64-bit addresses and for any offset. |
| `Dma.HalvesRoundTrip` | x710.c:50-56 | Joining the two 32-bit halves and translating back gives the address they were made from. |
| `Dma.TranslationInWindow` | i10e.c:28-30 | Addresses of the region translate in order into the window that the device was given. |
| `Rings.InitRings` | i10e.c:286-318 | Set-up never exhausts the region; every receive descriptor is clean and holds the translated address of its own buffer; buffers and both rings are aligned, inside the region and pairwise disjoint. |
| `Rings.RegionHolds` | i10e.c:36-44 | A fresh region has room for exactly 32768 receive buffers of 2048 bytes. |
| `Rings.AdminqInit` | x710.c:240-256 | The same for the admin queues: every descriptor is zero except for the buffer flag, the buffer size and the two halves of its own buffer's translated address. |
| `Rings.PollOnce` | i10e.c:370-380 | From the descriptor after the tail, (RDT + 1) mod 128, the poll visits those below the head, in order, all of them received, and finds their buffers by translating back; with the tail that set-up leaves it visits exactly 0, 1, ..., RDH - 1. |
| `Rings.PollCoversIff` | i10e.c:370-374 | Received are the descriptors that the device reaches from the tail, one after the other, before the head. The poll visits no others, and all of them exactly when their window does not wrap; after set-up it never does. |
| `PiSeries.Pow` | go/pi.go:12-25 | Square and multiply computes the power. |
| `PiSeries.OneThread` | go/pi.go:33-45 | The loop computes the alternating series. |
| `PiSeries.FirstSums` | go/pi.go:33-37 | It begins with x, x - x^3/3, x - x^3/3 + x^5/5. |
| `PiSeries.NextSum` | go/pi.go:34-36 | Each summand times its odd number is the one before times its odd number, times -x^2. |
| `PiSeries.SumsStayInRange` | go/pi.go:33-45 | For 0 <= x <= 1 all partial sums lie in [0, x]. |
| `PiSeries.LaterSumsAreNear` | go/pi.go:33-45 | Every later partial sum lies on the side of the next term and within the first omitted term x^(2m+1)/(2m+1). |
| `PiSeries.SeriesIsCauchy` | go/pi.go:33-45 | So the sums converge. |

## Left out

- ThreadletTheorems.RefinesSequential: the refinement of simple.c does not hold for a client that completes a message before it got the size, because the loop sends the header with an unlinked request. The lemma has the condition that the client waits, which client.c does; `EagerClient.RefinementIff` shows that it cannot be dropped, whatever the content of the message.
- Message sizes: every size from 1 to 1024 is covered where the source fixes 64; zero and negative sizes are not. The client's own fill loop is modelled for sizes up to 128, beyond which it leaves its buffer (`Generator.WritesInBoundsIff`).
- Threadlets: the threadlet structures are entries of a map from addresses rather than separate objects, and a message buffer is named by its owner; the endless loop around the for-each (submit, wait) is the pair of actions Turn and Wake of the machine and not part of the class `EventLoop`. One of the eight loops of io_uring_sharded.c is modelled; they share nothing but the constant message size.
- The completion queue does not overflow and `io_uring_submit` and the waits do not fail. No server here closes a connection, so no descriptor number is used twice.
- Pipeline: `if (err < 0)` in uring2.c:76 compares the library function `err`, so a failed submission is not noticed there; the model has no failing submission, and the wait for two completions delivers both.
- Epoll: nothing is claimed about connections whose handshake failed; they stay registered. What `epoll_wait` reports is any choice of registered descriptors and of the listening socket.
- Benchmark: processes and threads are a state machine over values, since their steps interleave; each Redis command and each semaphore operation is one step, and the polling loops of dsync.c and driver.py are steps that become possible when the polled value is right. Sleeps, clocks, SSH, and processes left over from earlier runs with a Redis that is not fresh are not modelled. That a run can finish is shown (`BenchmarkRuns`), that every run does is not: it would need fairness, and a driver waits for ever when a process dies.
- Benchmark.DriverTotal: with throughputs of 2^63 or more the printed report is negative, so the driver's total is the sum of the printed numbers only.
- Dma.AllocIsSafe: the source grants some requests that are larger than the region, when their end wraps around 2^64 (`Dma.WrappedBlock`); the condition under which this cannot happen is that no request is larger than the region. `Dma.AllocAllSucceeds` is a sufficient condition.
- LockStep: progress is shown for the client joined to simple.c and, in `PipelineProgress`, to uring2.c; for the two event loops it would need fairness between connections. Bounded streams are modelled for simple.c only (`BoundedStreams`).
- ClientThread: the connection is one to a lawful server; that the servers are lawful is proved separately.
- Rings: descriptors are the elements of an array, at addresses that the disjointness theorems speak about; device registers, enable polling, `send_one` and the admin queue's send are not modelled. The addresses come from a region in user space below 2^47.
- PiSeries: floating-point rounding.
- epoll_sharded.c, uring.c, setup-redis.c, go/simple, go/client.go, bench.py, setup_vfio.py, the cloudlab scripts and the Makefile: the same loops again, easy cases, or no logic of their own.
